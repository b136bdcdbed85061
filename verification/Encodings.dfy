/**
  The text encodings inside a callback token: positional numerals, the integer syntax that Python's
  `int(text, 36)` accepts, and unpadded base64url (section 5 of RFC 4648) with a lenient decoder.
*/
module Encodings {
  import opened Basics

  predicate IsAscii(s: string) { forall i :: 0 <= i < |s| ==> s[i] as int < 128 }

  // --- Numerals ---------------------------------------------------------------------------

  type Base = b: int | 2 <= b <= 36 witness 10

  function DigitChar(d: int): char
    requires 0 <= d < 36
  {
    if d < 10 then ('0' as int + d) as char else ('a' as int + (d - 10)) as char
  }

  function DigitValue(c: char): Option<int> {
    if '0' <= c <= '9' then Some(c as int - '0' as int)
    else if 'a' <= c <= 'z' then Some(c as int - 'a' as int + 10)
    else if 'A' <= c <= 'Z' then Some(c as int - 'A' as int + 10)
    else None
  }

  lemma Doubled(base: Base, q: int)
    ensures 0 <= q ==> 2 * q <= base * q
  {
    assert base * q == 2 * q + (base - 2) * q;
  }

  lemma DigitsLeft(v: nat, base: Base)
    ensures 0 <= v % base < base && 0 <= v / base
    ensures base <= v ==> v / base < v
  {
    var q := v / base;
    assert v == base * q + v % base;
    Doubled(base, q);
  }

  function Numeral(v: nat, base: Base): (r: string)
    ensures r != []
  {
    DigitsLeft(v, base);
    if v < base then [DigitChar(v)] else Numeral(v / base, base) + [DigitChar(v % base)]
  }

  /** Python's `str` of an integer. */
  function Decimal(v: int): string {
    if v < 0 then ['-'] + Numeral(-v, 10) else Numeral(v, 10)
  }

  function Base36(v: nat): string { Numeral(v, 36) }

  /** The printing loop: digits are put in front while something is left. */
  method PrintBase36(v: nat) returns (result: string)
    ensures result == Base36(v)
  {
    if v == 0 {
      return "0";
    }
    var value: nat := v;
    result := "";
    while value != 0
      invariant value == 0 ==> result == Base36(v)
      invariant value != 0 ==> Base36(value) + result == Base36(v)
      decreases value
    {
      ghost var before := result;
      var remainder := value % 36;
      ghost var shorter := Base36(value / 36);
      assert value >= 36 ==> shorter + [DigitChar(remainder)] + before == shorter + ([DigitChar(remainder)] + before);
      value := value / 36;
      result := [DigitChar(remainder)] + result;
    }
  }

  function Pow(base: int, n: nat): int {
    if n == 0 then 1 else base * Pow(base, n - 1)
  }

  /** A numeral has at most `n` digits exactly for the values below the `n`th power of its base. */
  lemma {:induction false} NumeralLength(v: nat, base: Base, n: nat)
    requires 1 <= n
    ensures |Numeral(v, base)| <= n <==> v < Pow(base, n)
  {
    if n == 1 {
      assert Pow(base, 1) == base * Pow(base, 0);
    } else if v < base {
      PowAtLeast(base, n);
    } else {
      NumeralLength(v / base, base, n - 1);
      Quotient(v, base, Pow(base, n - 1));
    }
  }

  lemma PowAtLeast(base: Base, n: nat)
    requires 1 <= n
    ensures base <= Pow(base, n)
  {
    if n == 1 {
      assert Pow(base, 1) == base * Pow(base, 0);
    } else {
      PowAtLeast(base, n - 1);
      assert base * 1 <= base * Pow(base, n - 1);
    }
  }

  lemma Quotient(v: nat, base: Base, m: int)
    ensures v / base < m <==> v < base * m
  {
    var q := v / base;
    assert base * q <= v < base * q + base;
    if q < m {
      assert base * (q + 1) <= base * m;
      assert base * (q + 1) == base * q + base;
    } else {
      assert base * m <= base * q;
    }
  }

  /** The characters a numeral is made of. */
  predicate IsDigit(c: char) { '0' <= c <= '9' || 'a' <= c <= 'z' }

  lemma DigitIsDigit(d: int)
    requires 0 <= d < 36
    ensures IsDigit(DigitChar(d))
  {
  }

  lemma {:induction false} NumeralDigits(v: nat, base: Base)
    ensures forall i :: 0 <= i < |Numeral(v, base)| ==> IsDigit(Numeral(v, base)[i])
  {
    DigitsLeft(v, base);
    if base <= v {
      NumeralDigits(v / base, base);
      DigitIsDigit(v % base);
      hide IsDigit, DigitChar;
    } else {
      DigitIsDigit(v);
    }
  }

  // --- Python's integer parser for base 36 ------------------------------------------------

  /** White space as CPython's integer parser sees it in an ASCII text. */
  predicate IsAsciiSpace(c: char) { c == ' ' || 9 <= c as int <= 13 }

  function StripAscii(s: string): (r: string)
    decreases |s|
  {
    if s == [] then s
    else if IsAsciiSpace(s[0]) then StripAscii(s[1..])
    else if IsAsciiSpace(s[|s| - 1]) then StripAscii(s[..|s| - 1])
    else s
  }

  /** Digits, with single underscores allowed between two of them. */
  predicate WellFormedDigits(s: string) {
    && s != [] && s[0] != '_' && s[|s| - 1] != '_'
    && (forall i :: 0 <= i < |s| ==> s[i] == '_' || DigitValue(s[i]).Some?)
    && (forall i :: 0 < i < |s| ==> s[i] != '_' || s[i - 1] != '_')
  }

  function DigitsValue(s: string): int {
    if s == [] then 0
    else
      var last := s[|s| - 1];
      if last == '_' then DigitsValue(s[..|s| - 1])
      else DigitsValue(s[..|s| - 1]) * 36 + (match DigitValue(last) case Some(d) => d case None => 0)
  }

  function ParseBase36(text: string): Option<int> {
    var s := StripAscii(text);
    var negative := s != [] && s[0] == '-';
    var digits := if s != [] && (s[0] == '-' || s[0] == '+') then s[1..] else s;
    if WellFormedDigits(digits) then Some(if negative then -DigitsValue(digits) else DigitsValue(digits)) else None
  }

  lemma {:induction false} NumeralValue(v: nat)
    ensures DigitsValue(Base36(v)) == v
  {
    var s := Base36(v);
    if 36 <= v {
      NumeralValue(v / 36);
      assert s[..|s| - 1] == Base36(v / 36);
    } else {
      assert s[..|s| - 1] == [];
    }
  }

  /** Reading back what the printer wrote gives the number. */
  lemma ParsePrinted(v: nat)
    ensures ParseBase36(Base36(v)) == Some(v)
  {
    NumeralDigits(v, 36);
    NumeralValue(v);
    var s := Base36(v);
    assert StripAscii(s) == s;
    assert forall i :: 0 <= i < |s| ==> IsDigit(s[i]) && DigitValue(s[i]).Some?;
  }

  // --- base64url --------------------------------------------------------------------------

  type Byte = x: int | 0 <= x < 256

  function Char64(v: int): char
    requires 0 <= v < 64
  {
    if v < 26 then ('A' as int + v) as char
    else if v < 52 then ('a' as int + (v - 26)) as char
    else if v < 62 then ('0' as int + (v - 52)) as char
    else if v == 62 then '-' else '_'
  }

  /** The decoder's table; it accepts the characters of the plain alphabet as well. */
  function Value64(c: char): (r: Option<int>)
    ensures r.Some? ==> 0 <= r.value < 64
  {
    if 'A' <= c <= 'Z' then Some(c as int - 'A' as int)
    else if 'a' <= c <= 'z' then Some(c as int - 'a' as int + 26)
    else if '0' <= c <= '9' then Some(c as int - '0' as int + 52)
    else if c == '-' || c == '+' then Some(62)
    else if c == '_' || c == '/' then Some(63)
    else None
  }

  predicate IsChar64(c: char) {
    'A' <= c <= 'Z' || 'a' <= c <= 'z' || '0' <= c <= '9' || c == '-' || c == '_'
  }

  /** The padded encoding. */
  function Encode64(b: seq<Byte>): string {
    if |b| == 0 then ""
    else if |b| == 1 then [Char64(b[0] / 4), Char64(b[0] % 4 * 16), '=', '=']
    else if |b| == 2 then [Char64(b[0] / 4), Char64(b[0] % 4 * 16 + b[1] / 16), Char64(b[1] % 16 * 4), '=']
    else
      [Char64(b[0] / 4), Char64(b[0] % 4 * 16 + b[1] / 16), Char64(b[1] % 16 * 4 + b[2] / 64), Char64(b[2] % 64)]
      + Encode64(b[3..])
  }

  /** Python's `rstrip("=")`. */
  function StripPadding(s: string): string {
    if s != [] && s[|s| - 1] == '=' then StripPadding(s[..|s| - 1]) else s
  }

  function Unpadded(b: seq<Byte>): string { StripPadding(Encode64(b)) }

  function Prepend(x: Byte, r: Option<seq<Byte>>): Option<seq<Byte>> {
    match r case None => None case Some(s) => Some([x] + s)
  }

  /**
    The lenient decoder of Python's binascii: foreign characters are skipped, padding ends the text
    once it completes a quantum, and a text that stops inside a quantum is refused.
  */
  function Scan(s: string, quad: int, left: int, pads: nat): Option<seq<Byte>>
    requires 0 <= quad < 4 && 0 <= left
    requires (quad == 1 ==> left < 64) && (quad == 2 ==> left < 16) && (quad == 3 ==> left < 4)
    decreases |s|
  {
    if s == [] then (if quad == 0 then Some([]) else None)
    else if s[0] == '=' then
      if quad >= 2 then (if quad + pads + 1 >= 4 then Some([]) else Scan(s[1..], quad, left, pads + 1))
      else Scan(s[1..], quad, left, pads)
    else
      match Value64(s[0])
      case None => Scan(s[1..], quad, left, pads)
      case Some(v) =>
        if quad == 0 then Scan(s[1..], 1, v, 0)
        else if quad == 1 then Prepend(left * 4 + v / 16, Scan(s[1..], 2, v % 16, 0))
        else if quad == 2 then Prepend(left * 16 + v / 4, Scan(s[1..], 3, v % 4, 0))
        else Prepend(left * 64 + v, Scan(s[1..], 0, 0, 0))
  }

  function Decode64(s: string): Option<seq<Byte>> { Scan(s, 0, 0, 0) }

  lemma Char64Value(v: int)
    requires 0 <= v < 64
    ensures Value64(Char64(v)) == Some(v) && IsChar64(Char64(v)) && Char64(v) != '='
  {
  }

  /** One character of the alphabet, taken by the decoder. */
  lemma ScanChar(v: int, rest: string, quad: int, left: int)
    requires 0 <= v < 64 && 0 <= quad < 4 && 0 <= left
    requires (quad == 1 ==> left < 64) && (quad == 2 ==> left < 16) && (quad == 3 ==> left < 4)
    ensures Scan([Char64(v)] + rest, quad, left, 0) ==
              if quad == 0 then Scan(rest, 1, v, 0)
              else if quad == 1 then Prepend(left * 4 + v / 16, Scan(rest, 2, v % 16, 0))
              else if quad == 2 then Prepend(left * 16 + v / 4, Scan(rest, 3, v % 4, 0))
              else Prepend(left * 64 + v, Scan(rest, 0, 0, 0))
  {
    Char64Value(v);
    var s := [Char64(v)] + rest;
    assert s[0] == Char64(v) && s[1..] == rest;
  }

  lemma ScanTwo(x: int, y: int, rest: string)
    requires 0 <= x < 64 && 0 <= y < 64
    ensures Scan([Char64(x), Char64(y)] + rest, 0, 0, 0) == Prepend(x * 4 + y / 16, Scan(rest, 2, y % 16, 0))
  {
    assert [Char64(x), Char64(y)] + rest == [Char64(x)] + ([Char64(y)] + rest);
    ScanChar(x, [Char64(y)] + rest, 0, 0);
    ScanChar(y, rest, 1, x);
  }

  /** The four values of a group, put together again. */
  lemma GroupBytes(a: Byte, b: Byte, c: Byte)
    ensures var x, y, z, w := a / 4, a % 4 * 16 + b / 16, b % 16 * 4 + c / 64, c % 64;
            && 0 <= x < 64 && 0 <= y < 64 && 0 <= z < 64 && 0 <= w < 64
            && x * 4 + y / 16 == a && y % 16 * 16 + z / 4 == b && z % 4 * 64 + w == c
  {
  }

  /** Three bytes make four characters, and the decoder takes them back. */
  lemma ScanGroup(a: Byte, b: Byte, c: Byte, rest: string)
    ensures Scan([Char64(a / 4), Char64(a % 4 * 16 + b / 16), Char64(b % 16 * 4 + c / 64), Char64(c % 64)] + rest,
                 0, 0, 0)
            == Prepend(a, Prepend(b, Prepend(c, Scan(rest, 0, 0, 0))))
  {
    GroupBytes(a, b, c);
    var x, y, z, w := a / 4, a % 4 * 16 + b / 16, b % 16 * 4 + c / 64, c % 64;
    hide Char64, Scan, Value64;
    var tail := [Char64(z)] + ([Char64(w)] + rest);
    assert [Char64(x), Char64(y), Char64(z), Char64(w)] + rest == [Char64(x), Char64(y)] + tail;
    ScanTwo(x, y, tail);
    ScanChar(z, [Char64(w)] + rest, 2, y % 16);
    ScanChar(w, rest, 3, z % 4);
  }

  lemma {:induction false} PaddingOnly(s: string)
    requires s == "" || s[|s| - 1] != '='
    ensures StripPadding(s) == s && StripPadding(s + "=") == s && StripPadding(s + "==") == s
  {
    var one, two := s + "=", s + "==";
    assert one[..|one| - 1] == s && one[|one| - 1] == '=';
    assert two[..|two| - 1] == one && two[|two| - 1] == '=';
    assert StripPadding(one) == StripPadding(s);
    assert StripPadding(two) == StripPadding(one);
  }

  /** The length and the characters of an unpadded encoding. */
  lemma {:induction false} UnpaddedShape(b: seq<Byte>)
    ensures |Unpadded(b)| == (4 * |b| + 2) / 3
    ensures forall i :: 0 <= i < |Unpadded(b)| ==> IsChar64(Unpadded(b)[i])
  {
    if |b| < 3 {
      UnpaddedLast(b);
    } else {
      UnpaddedStep(b);
      UnpaddedShape(b[3..]);
    }
  }

  lemma UnpaddedLast(b: seq<Byte>)
    requires |b| < 3
    ensures Unpadded(b) ==
              if |b| == 0 then ""
              else if |b| == 1 then [Char64(b[0] / 4), Char64(b[0] % 4 * 16)]
              else [Char64(b[0] / 4), Char64(b[0] % 4 * 16 + b[1] / 16), Char64(b[1] % 16 * 4)]
  {
    if |b| == 0 {
      PaddingOnly("");
    } else if |b| == 1 {
      var s := [Char64(b[0] / 4), Char64(b[0] % 4 * 16)];
      Char64Value(b[0] % 4 * 16);
      PaddingOnly(s);
      assert Encode64(b) == s + "==";
    } else {
      var s := [Char64(b[0] / 4), Char64(b[0] % 4 * 16 + b[1] / 16), Char64(b[1] % 16 * 4)];
      Char64Value(b[1] % 16 * 4);
      PaddingOnly(s);
      assert Encode64(b) == s + "=";
    }
  }

  function Group(a: Byte, b: Byte, c: Byte): string {
    [Char64(a / 4), Char64(a % 4 * 16 + b / 16), Char64(b % 16 * 4 + c / 64), Char64(c % 64)]
  }

  lemma {:induction false} StripAppend(s: string, t: string)
    requires s == "" || s[|s| - 1] != '='
    ensures StripPadding(s + t) == s + StripPadding(t)
  {
    if t == "" {
      assert s + t == s;
      PaddingOnly(s);
      assert StripPadding(t) == "";
      assert s + "" == s;
    } else if t[|t| - 1] == '=' {
      assert (s + t)[..|s + t| - 1] == s + t[..|t| - 1];
      StripAppend(s, t[..|t| - 1]);
    }
  }

  lemma UnpaddedStep(b: seq<Byte>)
    requires 3 <= |b|
    ensures Unpadded(b) == Group(b[0], b[1], b[2]) + Unpadded(b[3..])
    ensures forall i :: 0 <= i < 4 ==> IsChar64(Group(b[0], b[1], b[2])[i])
  {
    Char64Value(b[0] / 4);
    Char64Value(b[0] % 4 * 16 + b[1] / 16);
    Char64Value(b[1] % 16 * 4 + b[2] / 64);
    Char64Value(b[2] % 64);
    StripAppend(Group(b[0], b[1], b[2]), Encode64(b[3..]));
  }

  /** For byte strings of every length: unpadding, adding two padding characters and decoding is the identity. */
  lemma {:induction false} Base64RoundTrip(b: seq<Byte>)
    ensures Decode64(Unpadded(b) + "==") == Some(b)
  {
    hide StripPadding, Encode64;
    if |b| < 3 {
      LastGroup(b);
    } else {
      UnpaddedStep(b);
      var rest := Unpadded(b[3..]) + "==";
      assert Unpadded(b) + "==" == Group(b[0], b[1], b[2]) + rest;
      Base64RoundTrip(b[3..]);
      ScanGroup(b[0], b[1], b[2], rest);
      assert b == [b[0]] + ([b[1]] + ([b[2]] + b[3..]));
    }
  }

  lemma PaddingEnds(left: nat)
    ensures left == 0 ==> Scan("==", 0, left, 0) == Some([])
    ensures left < 16 ==> Scan("==", 2, left, 0) == Some([])
    ensures left < 4 ==> Scan("==", 3, left, 0) == Some([])
  {
    assert "=="[0] == '=' && "=="[1..] == "=" && "="[0] == '=' && "="[1..] == "";
  }

  lemma LastGroup(b: seq<Byte>)
    requires |b| < 3
    ensures Decode64(Unpadded(b) + "==") == Some(b)
  {
    UnpaddedLast(b);
    hide StripPadding, Encode64, Char64, Value64, Unpadded, Scan;
    if |b| == 0 {
      assert "" + "==" == "==";
      PaddingEnds(0);
    } else if |b| == 1 {
      GroupBytes(b[0], 0, 0);
      ScanTwo(b[0] / 4, b[0] % 4 * 16, "==");
      PaddingEnds(0);
      assert b == [b[0]] + [];
    } else {
      GroupBytes(b[0], b[1], 0);
      var y, z := b[0] % 4 * 16 + b[1] / 16, b[1] % 16 * 4;
      assert Unpadded(b) + "==" == [Char64(b[0] / 4), Char64(y)] + ([Char64(z)] + "==");
      ScanTwo(b[0] / 4, y, [Char64(z)] + "==");
      ScanChar(z, "==", 2, y % 16);
      PaddingEnds(z % 4);
      assert b == [b[0]] + ([b[1]] + []);
    }
  }

  /** Different byte strings have different encodings. */
  lemma UnpaddedInjective(a: seq<Byte>, b: seq<Byte>)
    ensures Unpadded(a) == Unpadded(b) <==> a == b
  {
    Base64RoundTrip(a);
    Base64RoundTrip(b);
  }

  // --- Splitting --------------------------------------------------------------------------

  /** Python's `split` on one character. */
  function Split(s: string, sep: char): (r: seq<string>)
    ensures r != []
  {
    if s == [] then [""]
    else
      var rest := Split(s[1..], sep);
      if s[0] == sep then [""] + rest else [[s[0]] + rest[0]] + rest[1..]
  }

  datatype Parted = Parted(head: string, found: bool, tail: string)

  /** Python's `partition` on one character. */
  function Partition(s: string, sep: char): Parted {
    if s == [] then Parted("", false, "")
    else if s[0] == sep then Parted("", true, s[1..])
    else
      var rest := Partition(s[1..], sep);
      rest.(head := [s[0]] + rest.head)
  }

  lemma {:induction false} SplitFirst(part: string, rest: string, sep: char)
    requires sep !in part
    ensures Split(part + [sep] + rest, sep) == [part] + Split(rest, sep)
  {
    if part == [] {
      var s := [] + [sep] + rest;
      assert s[0] == sep && s[1..] == rest;
    } else {
      assert (part + [sep] + rest)[1..] == part[1..] + [sep] + rest;
      SplitFirst(part[1..], rest, sep);
      assert [part[0]] + part[1..] == part;
    }
  }

  lemma {:induction false} SplitNone(part: string, sep: char)
    requires sep !in part
    ensures Split(part, sep) == [part]
  {
    if part != [] {
      SplitNone(part[1..], sep);
      assert [part[0]] + part[1..] == part;
    }
  }

  lemma {:induction false} PartitionFirst(part: string, rest: string, sep: char)
    requires sep !in part
    ensures Partition(part + [sep] + rest, sep) == Parted(part, true, rest)
    ensures Partition(part, sep) == Parted(part, false, "")
  {
    if part == [] {
      var s := [] + [sep] + rest;
      assert s[0] == sep && s[1..] == rest;
    } else {
      assert (part + [sep] + rest)[1..] == part[1..] + [sep] + rest;
      PartitionFirst(part[1..], rest, sep);
      assert [part[0]] + part[1..] == part;
    }
  }
}
