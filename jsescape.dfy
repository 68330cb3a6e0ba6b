/** JavaScript's `escape` and `unescape`, which the browser scripts use to
    store cookie values (gen/ui/appy.js). `escape` keeps letters, digits and
    `@*_+-./`, writes other characters up to U+00FF as `%XX` and the others
    as `%uXXXX`, a character beyond U+FFFF as its two UTF-16 halves;
    `unescape` reads both forms back, in either case of hex digit. */
module JsEscape {
  import Text

  const HEX_DIGITS: string := "0123456789ABCDEF"

  predicate IsHexChar(c: char) {
    Text.IsDigit(c) || ('a' <= c <= 'f') || ('A' <= c <= 'F')
  }

  function HexValue(c: char): (v: nat)
    requires IsHexChar(c)
    ensures v < 16
  {
    if Text.IsDigit(c) then c as int - '0' as int
    else if 'a' <= c <= 'f' then c as int - 'a' as int + 10
    else c as int - 'A' as int + 10
  }

  predicate AllHex(s: string) {
    forall i :: 0 <= i < |s| ==> IsHexChar(s[i])
  }

  /** The number a run of hex digits stands for. */
  function HexNumber(s: string): (n: nat)
    requires AllHex(s)
    ensures n < Pow16(|s|)
    decreases |s|
  {
    if s == [] then 0 else 16 * HexNumber(s[..|s| - 1]) + HexValue(s[|s| - 1])
  }

  function Pow16(w: nat): (p: nat)
    ensures p >= 1
  {
    if w == 0 then 1 else 16 * Pow16(w - 1)
  }

  /** `n` as `w` upper-case hex digits. */
  function HexDigits(n: nat, w: nat): (r: string)
    ensures |r| == w && AllHex(r)
    ensures forall i :: 0 <= i < |r| ==> r[i] in HEX_DIGITS
  {
    if w == 0 then "" else HexDigits(n / 16, w - 1) + [HEX_DIGITS[n % 16]]
  }

  lemma HexDigitValue(d: nat)
    requires d < 16
    ensures IsHexChar(HEX_DIGITS[d]) && HexValue(HEX_DIGITS[d]) == d
  {
  }

  /** Reading back `w` digits gives the number, when it fits. */
  lemma {:induction false} HexRoundTrip(n: nat, w: nat)
    requires n < Pow16(w)
    ensures HexNumber(HexDigits(n, w)) == n
    decreases w
  {
    if w > 0 {
      var r := HexDigits(n, w);
      assert r[..|r| - 1] == HexDigits(n / 16, w - 1);
      HexRoundTrip(n / 16, w - 1);
      HexDigitValue(n % 16);
    }
  }

  /** The characters `escape` leaves as they are. */
  predicate IsSafe(c: char) {
    Text.IsAlnum(c) || c in "@*_+-./"
  }

  /** The two UTF-16 halves of a character beyond U+FFFF. */
  function HighHalf(c: char): nat
    requires c as int >= 0x10000
  {
    0xD800 + (c as int - 0x10000) / 0x400
  }

  function LowHalf(c: char): nat
    requires c as int >= 0x10000
  {
    0xDC00 + (c as int - 0x10000) % 0x400
  }

  predicate IsHigh(u: nat) { 0xD800 <= u < 0xDC00 }
  predicate IsLow(u: nat) { 0xDC00 <= u < 0xE000 }

  /** The character two halves stand for. */
  function Joined(hi: nat, lo: nat): int {
    0x10000 + (hi - 0xD800) * 0x400 + (lo - 0xDC00)
  }

  function EscapeChar(c: char): string {
    if IsSafe(c) then [c]
    else if c as int < 0x100 then "%" + HexDigits(c as int, 2)
    else if c as int < 0x10000 then "%u" + HexDigits(c as int, 4)
    else "%u" + HexDigits(HighHalf(c), 4) + "%u" + HexDigits(LowHalf(c), 4)
  }

  /** JavaScript `escape(s)`. */
  function Escape(s: string): string
    decreases |s|
  {
    if s == [] then "" else EscapeChar(s[0]) + Escape(s[1..])
  }

  /** Whether `s` starts with `%u` and four hex digits. */
  predicate UnitAt(s: string) {
    |s| >= 6 && s[0] == '%' && s[1] == 'u' && AllHex(s[2..6])
  }

  /** JavaScript `unescape(s)`: `%uXXXX`, then `%XX`, else the character
      itself. A surrogate half is joined with the half that follows it; a
      lone half cannot be a character here and stays as written. */
  function Unescape(s: string): string
    decreases |s|
  {
    if s == [] then ""
    else if UnitAt(s) && !IsHigh(HexNumber(s[2..6])) && !IsLow(HexNumber(s[2..6])) then
      [HexNumber(s[2..6]) as char] + Unescape(s[6..])
    else if UnitAt(s) && IsHigh(HexNumber(s[2..6])) && UnitAt(s[6..]) && IsLow(HexNumber(s[6..][2..6])) then
      [Joined(HexNumber(s[2..6]), HexNumber(s[6..][2..6])) as char] + Unescape(s[12..])
    else if |s| >= 3 && s[0] == '%' && IsHexChar(s[1]) && IsHexChar(s[2]) then
      [HexNumber(s[1..3]) as char] + Unescape(s[3..])
    else [s[0]] + Unescape(s[1..])
  }

  /** An escaped value holds no separator of a cookie string. */
  lemma {:induction false} EscapedIsPlain(s: string)
    ensures ';' !in Escape(s) && ' ' !in Escape(s) && '=' !in Escape(s)
    decreases |s|
  {
    if s != [] {
      EscapedIsPlain(s[1..]);
      var e := EscapeChar(s[0]);
      assert ';' !in e && ' ' !in e && '=' !in e;
    }
  }

  lemma UnescapeSafe(c: char, rest: string)
    requires IsSafe(c)
    ensures Unescape([c] + rest) == [c] + Unescape(rest)
  {
    assert ([c] + rest)[1..] == rest;
  }

  lemma UnescapeByte(c: char, rest: string)
    requires !IsSafe(c) && c as int < 0x100
    ensures Unescape(EscapeChar(c) + rest) == [c] + Unescape(rest)
  {
    var h := HexDigits(c as int, 2);
    var s := "%" + h + rest;
    assert EscapeChar(c) + rest == s;
    assert s[1] == h[0] && s[2] == h[1];
    assert s[1] in HEX_DIGITS;
    assert !UnitAt(s);
    assert s[1..3] == h;
    HexRoundTrip(c as int, 2);
    assert s[3..] == rest;
  }

  lemma UnescapeUnit(c: char, rest: string)
    requires !IsSafe(c) && 0x100 <= c as int < 0x10000
    ensures Unescape(EscapeChar(c) + rest) == [c] + Unescape(rest)
  {
    var h := HexDigits(c as int, 4);
    var s := "%u" + h + rest;
    assert EscapeChar(c) + rest == s;
    assert s[2..6] == h;
    HexRoundTrip(c as int, 4);
    assert UnitAt(s);
    assert s[6..] == rest;
  }

  lemma HalvesJoin(c: char)
    requires c as int >= 0x10000
    ensures IsHigh(HighHalf(c)) && IsLow(LowHalf(c)) && Joined(HighHalf(c), LowHalf(c)) == c as int
    ensures HighHalf(c) < Pow16(4) && LowHalf(c) < Pow16(4)
  {
    var x := c as int - 0x10000;
    assert x == (x / 0x400) * 0x400 + x % 0x400;
    assert Pow16(4) == 0x10000;
  }

  lemma UnescapePair(c: char, rest: string)
    requires c as int >= 0x10000
    ensures Unescape(EscapeChar(c) + rest) == [c] + Unescape(rest)
  {
    HalvesJoin(c);
    var hi := HexDigits(HighHalf(c), 4);
    var lo := HexDigits(LowHalf(c), 4);
    var tail := "%u" + lo + rest;
    var s := "%u" + hi + tail;
    assert !IsSafe(c);
    assert EscapeChar(c) + rest == s;
    assert s[2..6] == hi && s[6..] == tail;
    assert tail[2..6] == lo && tail[6..] == rest;
    HexRoundTrip(HighHalf(c), 4);
    HexRoundTrip(LowHalf(c), 4);
    var u, v := HexNumber(s[2..6]), HexNumber(tail[2..6]);
    assert u == HighHalf(c) && v == LowHalf(c);
    assert UnitAt(s) && UnitAt(tail) && IsHigh(u) && IsLow(v);
    assert Unescape(s) == [Joined(u, v) as char] + Unescape(s[12..]);
    assert s[12..] == rest;
  }

  /** `unescape` undoes `escape`. */
  lemma {:induction false} EscapeRoundTrip(s: string)
    ensures Unescape(Escape(s)) == s
    decreases |s|
  {
    if s != [] {
      var c := s[0];
      var rest := Escape(s[1..]);
      if IsSafe(c) {
        UnescapeSafe(c, rest);
      } else if c as int < 0x100 {
        UnescapeByte(c, rest);
      } else if c as int < 0x10000 {
        UnescapeUnit(c, rest);
      } else {
        UnescapePair(c, rest);
      }
      EscapeRoundTrip(s[1..]);
      assert [c] + s[1..] == s;
    }
  }
}
