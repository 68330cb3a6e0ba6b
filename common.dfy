/** Option and Result, for the operations that return "nothing" or raise. */
module Wrappers {

  datatype Option<+T> = None | Some(value: T) {
    function GetOr(default: T): T {
      match this
      case Some(v) => v
      case None => default
    }
  }

  datatype Result<+R, +E> = Ok(value: R) | Err(error: E)
}

/** Characters and strings as the Python and JavaScript sources use them. */
module Text {
  import opened Wrappers

  predicate IsDigit(c: char) { '0' <= c <= '9' }
  predicate IsUpper(c: char) { 'A' <= c <= 'Z' }
  predicate IsLower(c: char) { 'a' <= c <= 'z' }
  predicate IsAlpha(c: char) { IsUpper(c) || IsLower(c) }
  predicate IsAlnum(c: char) { IsAlpha(c) || IsDigit(c) }
  /** Python's whitespace characters for `strip()` and `split()`. */
  predicate IsSpace(c: char) { c in WHITESPACE }

  predicate AllDigits(s: string) { forall i :: 0 <= i < |s| ==> IsDigit(s[i]) }

  function DigitValue(c: char): nat
    requires IsDigit(c)
  {
    c as int - '0' as int
  }

  /** The value of a string of decimal digits, as Python's `int` reads it. */
  function DecimalValue(s: string): nat
    requires AllDigits(s)
  {
    if s == [] then 0 else 10 * DecimalValue(s[..|s| - 1]) + DigitValue(s[|s| - 1])
  }

  /** Python `int(s)` on a string that may carry a leading minus sign. */
  predicate IsIntLiteral(s: string) {
    (|s| > 0 && AllDigits(s)) || (|s| > 1 && s[0] == '-' && AllDigits(s[1..]))
  }

  function IntValue(s: string): int
    requires IsIntLiteral(s)
  {
    if AllDigits(s) then DecimalValue(s) else -(DecimalValue(s[1..]) as int)
  }

  function DigitChar(d: nat): char
    requires d < 10
  {
    ('0' as int + d) as char
  }

  /** Python `str` of a natural number. */
  function NatToString(n: nat): (s: string)
    ensures |s| > 0 && AllDigits(s)
    decreases n
  {
    if n < 10 then [DigitChar(n)] else NatToString(n / 10) + [DigitChar(n % 10)]
  }

  function IntToString(n: int): string {
    if n < 0 then "-" + NatToString(-n) else NatToString(n)
  }

  lemma {:induction false} NatToStringRoundTrip(n: nat)
    ensures DecimalValue(NatToString(n)) == n
    decreases n
  {
    var s := NatToString(n);
    if n >= 10 {
      NatToStringRoundTrip(n / 10);
      assert s[..|s| - 1] == NatToString(n / 10);
    }
  }

  predicate StartsWith(s: string, prefix: string) {
    |prefix| <= |s| && s[..|prefix|] == prefix
  }

  predicate EndsWith(s: string, suffix: string) {
    |suffix| <= |s| && s[|s| - |suffix|..] == suffix
  }

  /** Python `x in s` for strings. */
  predicate Contains(s: string, sub: string)
    decreases |s|
  {
    StartsWith(s, sub) || (s != [] && Contains(s[1..], sub))
  }

  /** Python `s.replace(c, '')` for a single character. */
  function RemoveChar(s: string, c: char): (r: string)
    ensures c !in r
    ensures forall x :: x != c ==> (x in r <==> x in s)
    ensures |r| <= |s|
  {
    if s == [] then [] else RemoveChar(s[..|s| - 1], c) + (if s[|s| - 1] == c then [] else [s[|s| - 1]])
  }

  /** Replace every character `c` by the string `by`. */
  function ReplaceChar(s: string, c: char, repl: string): string {
    if s == [] then [] else ReplaceChar(s[..|s| - 1], c, repl) + (if s[|s| - 1] == c then repl else [s[|s| - 1]])
  }

  /** Python `s.lstrip(chars)`. */
  function LStrip(s: string, chars: set<char>): (r: string)
    ensures r == [] || r[0] !in chars
    ensures |r| <= |s| && forall i :: 0 <= i < |r| ==> r[i] == s[|s| - |r| + i]
    ensures forall i :: 0 <= i < |s| - |r| ==> s[i] in chars
  {
    if s != [] && s[0] in chars then LStrip(s[1..], chars) else s
  }

  /** Python `s.rstrip(chars)`. */
  function RStrip(s: string, chars: set<char>): (r: string)
    ensures r == [] || r[|r| - 1] !in chars
    ensures |r| <= |s| && forall i :: 0 <= i < |r| ==> r[i] == s[i]
    ensures forall i :: |r| <= i < |s| ==> s[i] in chars
  {
    if s != [] && s[|s| - 1] in chars then RStrip(s[..|s| - 1], chars) else s
  }

  const WHITESPACE: set<char> := {' ', '\t', '\n', '\r', '\U{000B}', '\U{000C}'}

  /** Python `s.strip()`. */
  function Strip(s: string): string {
    RStrip(LStrip(s, WHITESPACE), WHITESPACE)
  }

  /** Python `s.split(sep)` for a one-character separator. */
  function Split(s: string, sep: char): (parts: seq<string>)
    ensures |parts| > 0
    ensures forall i :: 0 <= i < |parts| ==> sep !in parts[i]
  {
    if s == [] then [[]]
    else
      var init := Split(s[..|s| - 1], sep);
      if s[|s| - 1] == sep then init + [[]]
      else init[..|init| - 1] + [init[|init| - 1] + [s[|s| - 1]]]
  }

  /** Python `sep.join(parts)`. */
  function Join(parts: seq<string>, sep: string): string {
    if parts == [] then []
    else if |parts| == 1 then parts[0]
    else Join(parts[..|parts| - 1], sep) + sep + parts[|parts| - 1]
  }

  /** `Split` and `Join` are inverse: joining the pieces gives the string back. */
  lemma {:induction false} SplitJoin(s: string, sep: char)
    ensures Join(Split(s, sep), [sep]) == s
  {
    if s != [] {
      var init := Split(s[..|s| - 1], sep);
      SplitJoin(s[..|s| - 1], sep);
      if s[|s| - 1] != sep {
        var last := init[|init| - 1];
        if |init| == 1 {
          assert s == s[..|s| - 1] + [s[|s| - 1]];
        } else {
          var front := init[..|init| - 1];
          assert Join(init, [sep]) == Join(front, [sep]) + [sep] + last;
          var parts := front + [last + [s[|s| - 1]]];
          assert parts[..|parts| - 1] == front;
          assert s == s[..|s| - 1] + [s[|s| - 1]];
        }
      } else {
        var parts := init + [[]];
        assert parts[..|parts| - 1] == init;
        assert s == s[..|s| - 1] + [s[|s| - 1]];
      }
    }
  }

  /** And conversely: pieces that do not contain the separator come back from their join. */
  lemma {:induction false} JoinSplit(parts: seq<string>, sep: char)
    requires |parts| > 0
    requires forall i :: 0 <= i < |parts| ==> sep !in parts[i]
    ensures Split(Join(parts, [sep]), sep) == parts
    decreases |parts|
  {
    if |parts| == 1 {
      SplitNoSep(parts[0], sep);
    } else {
      var front := parts[..|parts| - 1];
      var last := parts[|parts| - 1];
      JoinSplit(front, sep);
      SplitAppend(Join(front, [sep]), last, sep);
      assert front + [last] == parts;
    }
  }

  lemma {:induction false} SplitNoSep(s: string, sep: char)
    requires sep !in s
    ensures Split(s, sep) == [s]
  {
    if s != [] {
      SplitNoSep(s[..|s| - 1], sep);
      assert s[..|s| - 1] + [s[|s| - 1]] == s;
    }
  }

  /** Splitting `a + sep + b`, where `b` has no separator, adds `b` as one more piece. */
  lemma {:induction false} SplitAppend(a: string, b: string, sep: char)
    requires sep !in b
    ensures Split(a + [sep] + b, sep) == Split(a, sep) + [b]
    decreases |b|
  {
    if b == [] {
      assert a + [sep] + b == a + [sep];
      assert (a + [sep])[..|a + [sep]| - 1] == a;
    } else {
      var b' := b[..|b| - 1];
      SplitAppend(a, b', sep);
      var s := a + [sep] + b;
      assert s[..|s| - 1] == a + [sep] + b';
      assert b' + [b[|b| - 1]] == b;
    }
  }

  /** The number of occurrences of `c` in `s`. */
  function Count(s: string, c: char): nat {
    if s == [] then 0 else Count(s[..|s| - 1], c) + (if s[|s| - 1] == c then 1 else 0)
  }

  lemma {:induction false} SplitLength(s: string, sep: char)
    ensures |Split(s, sep)| == Count(s, sep) + 1
  {
    if s != [] { SplitLength(s[..|s| - 1], sep); }
  }

  function ToLowerChar(c: char): char {
    if IsUpper(c) then (c as int + 32) as char else c
  }

  function ToUpperChar(c: char): char {
    if IsLower(c) then (c as int - 32) as char else c
  }

  /** Python `s.lower()` on ASCII letters. */
  function Lower(s: string): (r: string)
    ensures |r| == |s|
    ensures forall i :: 0 <= i < |s| ==> r[i] == ToLowerChar(s[i])
  {
    if s == [] then [] else [ToLowerChar(s[0])] + Lower(s[1..])
  }

  /** Python `s.upper()` on ASCII letters. */
  function Upper(s: string): (r: string)
    ensures |r| == |s|
    ensures forall i :: 0 <= i < |s| ==> r[i] == ToUpperChar(s[i])
  {
    if s == [] then [] else [ToUpperChar(s[0])] + Upper(s[1..])
  }

  function Pow10(k: nat): (p: nat)
    ensures p >= 1
  {
    if k == 0 then 1 else 10 * Pow10(k - 1)
  }

  lemma ShiftStep(x: int, p: int, y: int, d: int)
    ensures 10 * (x * p + y) + d == x * (10 * p) + (10 * y + d)
  {
  }

  /** Reading digits after digits shifts the first value left. */
  lemma {:induction false} DecimalValueConcat(a: string, b: string)
    requires AllDigits(a) && AllDigits(b)
    ensures AllDigits(a + b)
    ensures DecimalValue(a + b) == DecimalValue(a) * Pow10(|b|) + DecimalValue(b)
    decreases |b|
  {
    assert forall i :: 0 <= i < |a + b| ==> (a + b)[i] == if i < |a| then a[i] else b[i - |a|];
    if b == [] {
      assert a + b == a;
    } else {
      var b' := b[..|b| - 1];
      assert (a + b)[..|a + b| - 1] == a + b';
      DecimalValueConcat(a, b');
      var d := DigitValue(b[|b| - 1]);
      assert b[..|b| - 1] == b';
      assert DecimalValue(a + b) == 10 * DecimalValue(a + b') + d;
      assert DecimalValue(b) == 10 * DecimalValue(b') + d;
      ShiftStep(DecimalValue(a), Pow10(|b'|), DecimalValue(b'), d);
    }
  }

  /** Python `s.capitalize()` restricted to the first letter, as the sources use it. */
  function Capitalize(s: string): (r: string)
    ensures |r| == |s|
    ensures s != [] ==> r[0] == ToUpperChar(s[0]) && r[1..] == s[1..]
  {
    if s == [] then [] else [ToUpperChar(s[0])] + s[1..]
  }

  /** Index of the first occurrence of `c`, or `|s|` when there is none. */
  function IndexOf(s: string, c: char): (i: nat)
    ensures i <= |s|
    ensures i < |s| ==> s[i] == c
    ensures c !in s[..i]
  {
    if s == [] then 0 else if s[0] == c then 0 else 1 + IndexOf(s[1..], c)
  }

  /** Index of the last occurrence of `c`, or -1 when there is none. */
  function LastIndexOf(s: string, c: char): (i: int)
    ensures -1 <= i < |s|
    ensures i >= 0 ==> s[i] == c
    ensures forall k :: i < k < |s| ==> s[k] != c
  {
    if s == [] then -1
    else if s[|s| - 1] == c then |s| - 1
    else LastIndexOf(s[..|s| - 1], c)
  }

  /** Python `int(s)`: surrounding whitespace, an optional sign, then at least
      one digit; anything else is a ValueError (None). */
  function PyInt(s: string): (r: Option<int>)
    ensures r.Some? ==> var t := Strip(s); |t| > 0
  {
    var t := Strip(s);
    if |t| > 0 && AllDigits(t) then Some(DecimalValue(t))
    else if |t| > 1 && t[0] == '+' && AllDigits(t[1..]) then Some(DecimalValue(t[1..]))
    else if |t| > 1 && t[0] == '-' && AllDigits(t[1..]) then Some(-(DecimalValue(t[1..]) as int))
    else None
  }

  lemma {:induction false} PyIntOfNat(n: nat)
    ensures PyInt(NatToString(n)) == Some(n)
  {
    var s := NatToString(n);
    NatToStringRoundTrip(n);
    NoSpaceStrip(s);
  }

  /** A non-empty string of digits reads as its decimal value. */
  lemma PyIntOfDigits(s: string)
    requires |s| > 0 && AllDigits(s)
    ensures PyInt(s) == Some(DecimalValue(s))
  {
    NoSpaceStrip(s);
  }

  lemma DigitNotSpace(c: char)
    requires IsDigit(c)
    ensures c !in WHITESPACE
  {
  }

  lemma NoSpaceStrip(s: string)
    requires AllDigits(s)
    ensures Strip(s) == s
  {
    if s != [] {
      DigitNotSpace(s[0]);
      DigitNotSpace(s[|s| - 1]);
      var l := LStrip(s, WHITESPACE);
      assert l == s;
      assert RStrip(l, WHITESPACE) == l;
    }
  }

  /** Python `s.split()` without argument: the maximal runs of non-whitespace. */
  function Words(s: string): (ws: seq<string>)
    ensures forall i :: 0 <= i < |ws| ==> |ws[i]| > 0 && forall j :: 0 <= j < |ws[i]| ==> !IsSpace(ws[i][j])
  {
    if s == [] then []
    else
      var init := Words(s[..|s| - 1]);
      var c := s[|s| - 1];
      if IsSpace(c) then init
      else if |s| >= 2 && !IsSpace(s[|s| - 2]) && init != [] then init[..|init| - 1] + [init[|init| - 1] + [c]]
      else init + [[c]]
  }

  /** Python's floor division `a // b` (and Python 2 `/` on integers). */
  function FloorDiv(a: int, b: int): int
    requires b != 0
  {
    if b > 0 then a / b else (-a) / (-b)
  }

  /** Python's `a % b`, which takes the sign of `b`. */
  function PyMod(a: int, b: int): int
    requires b != 0
  {
    a - b * FloorDiv(a, b)
  }

  /** The quotient of `n` by `b` is the `q` whose batch `[q*b, q*b+b)` holds `n`. */
  lemma DivInBatch(q: int, n: int, b: int)
    requires b > 0 && q * b <= n < q * b + b
    ensures n / b == q
  {
    var d := n / b - q;
    assert b * d == (n - q * b) - n % b;
    if d >= 1 {
      MulAtLeast(b, d);
    } else if d <= -1 {
      MulAtLeast(b, -d);
    }
  }

  lemma {:induction false} MulAtLeast(b: int, d: int)
    requires b > 0 && d >= 1
    ensures b * d >= b
    decreases d
  {
    if d > 1 {
      MulAtLeast(b, d - 1);
      assert b * d == b * (d - 1) + b;
    }
  }

  /** Python `s[:w]` for any integer `w`. */
  function Head(s: string, w: int): (r: string)
    ensures |r| <= |s| && r == s[..|r|]
    ensures 0 <= w <= |s| ==> |r| == w
  {
    if w >= 0 then s[..if w <= |s| then w else |s|]
    else if |s| + w > 0 then s[..|s| + w]
    else ""
  }

  /** Python slicing `s[a:b]` for non-negative bounds, which clamps. */
  function Slice<T>(s: seq<T>, a: nat, b: nat): (r: seq<T>)
    ensures a <= |s| && a <= b ==> r == s[a..if b <= |s| then b else |s|]
    ensures (a > |s| || b <= a) ==> r == []
  {
    var hi := if b <= |s| then b else |s|;
    if a <= hi then s[a..hi] else []
  }
}

/** Python lists used as ordered collections. */
module Lists {

  /** No element occurs twice. */
  ghost predicate NoDup<T>(s: seq<T>) {
    forall i, j :: 0 <= i < j < |s| ==> s[i] != s[j]
  }

  /** Two lists without repeats and without common element concatenate into one
      without repeats. */
  lemma NoDupConcat<T>(a: seq<T>, b: seq<T>)
    requires NoDup(a) && NoDup(b) && forall x :: x in a ==> x !in b
    ensures NoDup(a + b)
  {
    var s := a + b;
    forall i, j | 0 <= i < j < |s| ensures s[i] != s[j] {
      if j < |a| {
        assert s[i] == a[i] && s[j] == a[j];
      } else if i >= |a| {
        assert s[i] == b[i - |a|] && s[j] == b[j - |a|];
      } else {
        assert s[i] == a[i] && s[j] == b[j - |a|] && a[i] in a;
      }
    }
  }

  /** Drop the first occurrence of `x`, as Python's `list.remove` does
      (callers check membership first; an absent `x` leaves `s` unchanged). */
  function RemoveFirst<T(==)>(s: seq<T>, x: T): (r: seq<T>)
    ensures x in s ==> |r| == |s| - 1
    ensures x !in s ==> r == s
  {
    if s == [] then []
    else if s[0] == x then s[1..]
    else
      assert x in s ==> x in s[1..];
      [s[0]] + RemoveFirst(s[1..], x)
  }

  /** Exactly one occurrence of `x` goes away. */
  lemma {:induction false} RemoveFirstMultiset<T>(s: seq<T>, x: T)
    requires x in s
    ensures multiset(RemoveFirst(s, x)) == multiset(s) - multiset{x}
  {
    assert s == [s[0]] + s[1..];
    if s[0] != x {
      RemoveFirstMultiset(s[1..], x);
    }
  }

  /** Without duplicates, dropping `x` leaves no `x` and still no duplicate. */
  lemma {:induction false} RemoveFirstNoDup<T>(s: seq<T>, x: T)
    requires NoDup(s)
    ensures x !in RemoveFirst(s, x) && NoDup(RemoveFirst(s, x))
  {
    if s != [] {
      var t := s[1..];
      assert NoDup(t) by {
        forall a, b | 0 <= a < b < |t| ensures t[a] != t[b] { assert t[a] == s[a + 1] && t[b] == s[b + 1]; }
      }
      assert s[0] !in t by {
        forall j | 0 <= j < |t| ensures t[j] != s[0] { assert t[j] == s[j + 1]; }
      }
      if s[0] != x {
        RemoveFirstNoDup(t, x);
        var rest := RemoveFirst(t, x);
        RemoveFirstMembers(t, x);
        var r := [s[0]] + rest;
        forall a, b | 0 <= a < b < |r| ensures r[a] != r[b] {
          assert r[b] == rest[b - 1];
          if a > 0 { assert r[a] == rest[a - 1]; }
        }
      }
    }
  }

  /** Dropping an element adds no new one. */
  lemma {:induction false} RemoveFirstMembers<T>(s: seq<T>, x: T)
    ensures forall y :: y in RemoveFirst(s, x) ==> y in s
  {
    if s != [] && s[0] != x {
      RemoveFirstMembers(s[1..], x);
    }
  }

  /** Python's `list.index`: the position of the first occurrence. */
  function FirstIndex<T(==)>(s: seq<T>, x: T): (i: nat)
    requires x in s
    ensures i < |s| && s[i] == x && x !in s[..i]
  {
    if s[0] == x then 0
    else
      var i := 1 + FirstIndex(s[1..], x);
      assert s[..i] == [s[0]] + s[1..][..i - 1];
      i
  }

  /** Python's `list.insert(i, x)` for `i >= 0`: past the end it appends. */
  function InsertAt<T>(s: seq<T>, i: nat, x: T): (r: seq<T>)
    ensures |r| == |s| + 1
    ensures multiset(r) == multiset(s) + multiset{x}
    ensures r[if i < |s| then i else |s|] == x
    ensures i >= |s| ==> r == s + [x]
    ensures i < |s| ==> r[..i] == s[..i] && r[i + 1..] == s[i..]
  {
    if i >= |s| then s + [x]
    else
      assert s == s[..i] + s[i..];
      s[..i] + [x] + s[i..]
  }

  /** Inserting an element that is absent keeps a list free of duplicates. */
  lemma InsertAtNoDup<T>(s: seq<T>, i: nat, x: T)
    requires NoDup(s) && x !in s
    ensures NoDup(InsertAt(s, i, x))
  {
    var r := InsertAt(s, i, x);
    var k := if i < |s| then i else |s|;
    forall a, b | 0 <= a < b < |r| ensures r[a] != r[b] {
      if a == k || b == k {
        var other := if a == k then b else a;
        assert r[other] in s by {
          if other < k { assert r[other] == s[other]; } else { assert r[other] == s[other - 1]; }
        }
      } else {
        var sa := if a < k then a else a - 1;
        var sb := if b < k then b else b - 1;
        assert r[a] == s[sa] && r[b] == s[sb];
      }
    }
  }

  lemma ConcatAssoc<T>(a: seq<T>, b: seq<T>, c: seq<T>)
    ensures (a + b) + c == a + (b + c)
  {
  }

  lemma PrefixSnoc<T>(s: seq<T>, i: nat)
    requires i < |s|
    ensures s[..i] + [s[i]] == s[..i + 1]
  {
  }

  lemma SliceJoin<T>(s: seq<T>, i: nat, j: nat)
    requires i <= j <= |s|
    ensures s[..i] + s[i..j] == s[..j]
  {
  }

  lemma PrefixSplit<T>(s: seq<T>, i: nat)
    requires i <= |s|
    ensures s[..i] + s[i..] == s
  {
  }

  /** The lists `f(0)`, ..., `f(n - 1)`, one after the other. */
  function Flatten<T>(f: nat -> seq<T>, n: nat): seq<T> {
    if n == 0 then [] else Flatten(f, n - 1) + f(n - 1)
  }

  lemma {:induction false} FlattenMembers<T>(f: nat -> seq<T>, n: nat)
    ensures forall x :: x in Flatten(f, n) <==> exists i :: 0 <= i < n && x in f(i)
  {
    if n > 0 {
      FlattenMembers(f, n - 1);
    }
  }

  /** `v(i)` for the last `i < n` that `m` holds of, or `none`. */
  function LastWhere<T>(m: nat -> bool, v: nat -> T, none: T, n: nat): T {
    if n == 0 then none else if m(n - 1) then v(n - 1) else LastWhere(m, v, none, n - 1)
  }

  lemma {:induction false} LastWhereNone<T>(m: nat -> bool, v: nat -> T, none: T, n: nat)
    requires forall i: nat :: i < n ==> !m(i)
    ensures LastWhere(m, v, none, n) == none
  {
    if n > 0 {
      LastWhereNone(m, v, none, n - 1);
    }
  }

  lemma {:induction false} LastWhereLast<T>(m: nat -> bool, v: nat -> T, none: T, n: nat, i: nat)
    requires i < n && m(i)
    requires forall k: nat :: i < k < n ==> !m(k)
    ensures LastWhere(m, v, none, n) == v(i)
  {
    if i < n - 1 {
      assert !m(n - 1);
      LastWhereLast(m, v, none, n - 1, i);
    }
  }

  /** When `m` holds somewhere below `n`, the result is `v(k)` for the last
      such `k`. */
  lemma {:induction false} LastWhereFound<T>(m: nat -> bool, v: nat -> T, none: T, n: nat, i: nat)
    requires i < n && m(i)
    ensures exists k: nat :: i <= k < n && m(k) && LastWhere(m, v, none, n) == v(k) && forall j: nat :: k < j < n ==> !m(j)
  {
    if !m(n - 1) {
      LastWhereFound(m, v, none, n - 1, i);
      var k: nat :| i <= k < n - 1 && m(k) && LastWhere(m, v, none, n - 1) == v(k) && forall j: nat :: k < j < n - 1 ==> !m(j);
      assert forall j: nat :: k < j < n ==> !m(j);
    }
  }
}
