// The JavaScript string operations the source relies on: whitespace as
// `trim()` and `/\s+/` see it, ASCII case mapping, `slice` with negative
// indices, `split` on one character, `padEnd`, `includes`, and the decimal
// rendering of integers inside template literals.
module Strings {

  /** The line terminators of ECMAScript (what `.` in a regular expression does not match). */
  predicate IsLineTerminator(c: char) {
    c == '\n' || c == '\r' || c == '\U{2028}' || c == '\U{2029}'
  }

  /** ECMAScript WhiteSpace and LineTerminator: what `trim()` removes and `\s` matches. */
  predicate IsWhitespace(c: char) {
    || IsLineTerminator(c)
    || c == '\t' || c == '\U{B}' || c == '\U{C}' || c == ' ' || c == '\U{A0}' || c == '\U{FEFF}'
    || c == '\U{1680}' || ('\U{2000}' <= c <= '\U{200A}') || c == '\U{202F}' || c == '\U{205F}'
    || c == '\U{3000}'
  }

  predicate AllWhitespace(s: string) {
    forall i :: 0 <= i < |s| ==> IsWhitespace(s[i])
  }

  /** The number of whitespace characters `s` starts with. */
  function LeadingWhitespace(s: string): (n: nat)
    ensures n <= |s|
    ensures forall i :: 0 <= i < n ==> IsWhitespace(s[i])
    ensures n < |s| ==> !IsWhitespace(s[n])
  {
    if s != [] && IsWhitespace(s[0]) then
      var m := LeadingWhitespace(s[1..]);
      assert forall i :: 1 <= i < m + 1 ==> s[i] == s[1..][i - 1];
      m + 1
    else 0
  }

  /** `trimStart()`: the suffix left after dropping leading whitespace. */
  function TrimStart(s: string): (r: string)
    ensures |r| <= |s| && r == s[|s| - |r|..]
    ensures r == [] || !IsWhitespace(r[0])
    ensures AllWhitespace(s[..|s| - |r|])
    ensures AllWhitespace(s) ==> r == []
  {
    var n := LeadingWhitespace(s);
    assert s[..n] == s[..|s| - |s[n..]|];
    assert forall i :: 0 <= i < n ==> s[..n][i] == s[i];
    s[n..]
  }

  /** `trimEnd()`: the prefix left after dropping trailing whitespace. */
  function TrimEnd(s: string): (r: string)
    ensures |r| <= |s| && r == s[..|r|]
    ensures r == [] || !IsWhitespace(r[|r| - 1])
    ensures AllWhitespace(s[|r|..])
  {
    if |s| > 0 && IsWhitespace(s[|s| - 1]) then
      var r := TrimEnd(s[..|s| - 1]);
      assert s[|r|..] == s[..|s| - 1][|r|..] + [s[|s| - 1]];
      r
    else s
  }

  /** `trim()`. */
  function Trim(s: string): (r: string)
    ensures r == [] || (!IsWhitespace(r[0]) && !IsWhitespace(r[|r| - 1]))
  {
    TrimEnd(TrimStart(s))
  }

  /** Trimming leaves nothing exactly when the text is all whitespace. */
  lemma TrimEmpty(s: string)
    ensures Trim(s) == [] <==> AllWhitespace(s)
  {
    var t := TrimStart(s);
    var k := |s| - |t|;
    assert s == s[..k] + t;
    if Trim(s) == [] {
      assert AllWhitespace(t[0..]);
      assert t[0..] == t;
      assert t == [];
      assert s == s[..k];
    }
  }

  /** Text that ends in a non-whitespace character keeps that character after `trimStart()`. */
  lemma {:induction false} TrimStartKeepsLast(s: string)
    requires s != [] && !IsWhitespace(s[|s| - 1])
    ensures TrimStart(s) != [] && TrimStart(s)[|TrimStart(s)| - 1] == s[|s| - 1]
  {
    if IsWhitespace(s[0]) {
      TrimStartKeepsLast(s[1..]);
    }
  }

  lemma TrimIdempotent(s: string)
    ensures Trim(Trim(s)) == Trim(s)
  {
  }

  /** JavaScript's `toLowerCase` on one character, for the ASCII letters. */
  function LowerChar(c: char): char {
    if 'A' <= c <= 'Z' then (c as int + 32) as char else c
  }

  /** JavaScript's `toUpperCase` on one character, for the ASCII letters. */
  function UpperChar(c: char): char {
    if 'a' <= c <= 'z' then (c as int - 32) as char else c
  }

  function Lower(s: string): (r: string)
    ensures |r| == |s| && forall i :: 0 <= i < |s| ==> r[i] == LowerChar(s[i])
  {
    seq(|s|, i requires 0 <= i < |s| => LowerChar(s[i]))
  }

  function Upper(s: string): (r: string)
    ensures |r| == |s| && forall i :: 0 <= i < |s| ==> r[i] == UpperChar(s[i])
  {
    seq(|s|, i requires 0 <= i < |s| => UpperChar(s[i]))
  }

  lemma UpperIdempotent(s: string)
    ensures Upper(Upper(s)) == Upper(s)
  {
  }

  /** `s.startsWith(p)`. */
  predicate StartsWith(s: string, p: string) {
    |p| <= |s| && s[..|p|] == p
  }

  /** `s.includes(sub)`. */
  predicate Contains(s: string, sub: string) {
    exists i :: 0 <= i <= |s| && OccursAt(s, sub, i)
  }

  /** `sub` stands in `s` from position `i` on. */
  predicate OccursAt(s: string, sub: string, i: nat) {
    i + |sub| <= |s| && s[i..i + |sub|] == sub
  }

  /** Where a JavaScript `slice` index lands in a string of length `n`. */
  function SliceIndex(i: int, n: nat): (r: nat)
    ensures r <= n
    ensures 0 <= i <= n ==> r == i
    ensures -(n as int) <= i < 0 ==> r as int == n as int + i
  {
    if i < 0 then (if n + i < 0 then 0 else n + i) else if i > n then n else i
  }

  /** `s.slice(start, end)`: negative indices count from the end and both are clamped. */
  function Slice(s: string, start: int, end: int): (r: string)
    ensures |r| <= |s|
  {
    var a := SliceIndex(start, |s|);
    var b := SliceIndex(end, |s|);
    if a < b then s[a..b] else ""
  }

  /** `s.slice(start)`. */
  function SliceFrom(s: string, start: int): string {
    Slice(s, start, |s|)
  }

  /** Slicing from an index inside the string is the sequence slice. */
  lemma SliceFromInside(s: string, start: nat)
    requires start <= |s|
    ensures SliceFrom(s, start) == s[start..]
  {
  }

  /** `n` copies of `c`. */
  function Repeat(c: char, n: nat): (r: string)
    ensures |r| == n && forall i :: 0 <= i < n ==> r[i] == c
  {
    seq(n, _ => c)
  }

  /** `s.padEnd(n, c)` for a one-character pad. */
  function PadEnd(s: string, n: nat, c: char): (r: string)
    ensures |r| == if |s| < n then n else |s|
    ensures r[..|s|] == s
    ensures forall i :: |s| <= i < |r| ==> r[i] == c
  {
    if |s| < n then s + Repeat(c, n - |s|) else s
  }

  // ---------------------------------------------------------------------------
  // Digits and numerals

  predicate IsDigit(c: char) {
    '0' <= c <= '9'
  }

  predicate AllDigits(s: string) {
    forall i :: 0 <= i < |s| ==> IsDigit(s[i])
  }

  /** The value of `c` as a digit in base `radix` (2 to 16), or -1 when it is not one. */
  function DigitIn(c: char, radix: nat): (d: int)
    requires 2 <= radix <= 16
    ensures -1 <= d < radix
    ensures radix == 10 ==> (d >= 0 <==> IsDigit(c))
  {
    var v :=
      if '0' <= c <= '9' then c as int - '0' as int
      else if 'a' <= c <= 'f' then c as int - 'a' as int + 10
      else if 'A' <= c <= 'F' then c as int - 'A' as int + 10
      else -1;
    if v < radix then v else -1
  }

  predicate AllDigitsIn(s: string, radix: nat)
    requires 2 <= radix <= 16
  {
    forall i :: 0 <= i < |s| ==> DigitIn(s[i], radix) >= 0
  }

  function Pow(b: nat, e: nat): (r: nat)
    ensures b > 0 ==> r > 0
  {
    if e == 0 then 1 else b * Pow(b, e - 1)
  }

  /** The number written by the digit string `s` in base `radix` (the empty string is 0). */
  function ValueIn(s: string, radix: nat): nat
    requires 2 <= radix <= 16 && AllDigitsIn(s, radix)
  {
    if s == [] then 0
    else
      var init := s[..|s| - 1];
      var w := ValueIn(init, radix);
      var d := DigitIn(s[|s| - 1], radix);
      w * radix + d
  }

  /** The value of a string of decimal digits. */
  function DecimalValue(s: string): nat
    requires AllDigits(s)
  {
    assert AllDigitsIn(s, 10);
    ValueIn(s, 10)
  }

  /** Reading digits after other digits shifts the first block by the length of the second. */
  lemma {:induction false} ValueInConcat(a: string, b: string, radix: nat)
    requires 2 <= radix <= 16 && AllDigitsIn(a, radix) && AllDigitsIn(b, radix)
    ensures AllDigitsIn(a + b, radix)
    ensures ValueIn(a + b, radix) == ValueIn(a, radix) * Pow(radix, |b|) + ValueIn(b, radix)
    decreases |b|
  {
    var ab := a + b;
    assert AllDigitsIn(ab, radix) by {
      forall i | 0 <= i < |ab| ensures DigitIn(ab[i], radix) >= 0 {
        if i < |a| { assert ab[i] == a[i]; } else { assert ab[i] == b[i - |a|]; }
      }
    }
    if b == [] {
      assert ab == a;
    } else {
      var b' := b[..|b| - 1];
      assert AllDigitsIn(b', radix) by {
        forall i | 0 <= i < |b'| ensures DigitIn(b'[i], radix) >= 0 { assert b'[i] == b[i]; }
      }
      assert ab[..|ab| - 1] == a + b';
      assert ab[|ab| - 1] == b[|b| - 1];
      ValueInConcat(a, b', radix);
      var d := DigitIn(b[|b| - 1], radix);
      assert ValueIn(ab, radix) == ValueIn(a + b', radix) * radix + d;
      assert ValueIn(b, radix) == ValueIn(b', radix) * radix + d;
      Distribute(ValueIn(a, radix), Pow(radix, |b'|), ValueIn(b', radix), radix, d);
      assert Pow(radix, |b|) == radix * Pow(radix, |b'|);
    }
  }

  lemma Distribute(x: int, p: int, y: int, r: int, d: int)
    ensures (x * p + y) * r + d == x * (r * p) + (y * r + d)
  {
  }

  /** Decimal digits in a row: the same law for base 10. */
  lemma DecimalConcat(a: string, b: string)
    requires AllDigits(a) && AllDigits(b)
    ensures AllDigits(a + b)
    ensures DecimalValue(a + b) == DecimalValue(a) * Pow(10, |b|) + DecimalValue(b)
  {
    assert AllDigitsIn(a, 10) && AllDigitsIn(b, 10);
    ValueInConcat(a, b, 10);
    assert AllDigitsIn(a + b, 10);
  }

  /** A string of zeros has the value 0. */
  lemma {:induction false} ZerosValue(n: nat)
    ensures AllDigits(Repeat('0', n)) && DecimalValue(Repeat('0', n)) == 0
  {
    var z := Repeat('0', n);
    assert AllDigitsIn(z, 10);
    if n > 0 {
      ZerosValue(n - 1);
      assert z[..n - 1] == Repeat('0', n - 1);
    }
  }

  /** The digit character for `d`. */
  function DigitChar(d: nat): (c: char)
    requires d < 10
    ensures IsDigit(c) && DigitIn(c, 10) == d
  {
    ('0' as int + d) as char
  }

  /** The decimal numeral of `n`, as `String(n)` writes it. */
  function NatToString(n: nat): (r: string)
    ensures r != [] && AllDigits(r)
    ensures |r| > 1 ==> r[0] != '0'
    ensures DecimalValue(r) == n
  {
    if n < 10 then
      var r := [DigitChar(n)];
      assert AllDigitsIn(r, 10);
      assert r[..0] == [];
      assert ValueIn(r, 10) == ValueIn(r[..0], 10) * 10 + DigitIn(r[0], 10);
      r
    else
      var p := NatToString(n / 10);
      var r := p + [DigitChar(n % 10)];
      assert AllDigitsIn(r, 10) by {
        forall i | 0 <= i < |r| ensures DigitIn(r[i], 10) >= 0 {
          if i < |p| { assert r[i] == p[i]; }
        }
      }
      assert r[..|r| - 1] == p;
      assert AllDigitsIn(p, 10);
      r
  }

  /** `String(i)` for an integer: a minus sign before the numeral of a negative value. */
  function IntToString(i: int): (r: string)
    ensures r != []
    ensures i < 0 <==> r[0] == '-'
  {
    if i < 0 then "-" + NatToString(-i) else NatToString(i)
  }

  /** Different numbers have different numerals. */
  lemma NatToStringInjective(m: nat, n: nat)
    requires NatToString(m) == NatToString(n)
    ensures m == n
  {
  }

  // ---------------------------------------------------------------------------
  // Splitting

  /** `s.split(sep)` for a one-character separator. */
  function Split(s: string, sep: char): (parts: seq<string>)
    ensures |parts| >= 1
    ensures forall k :: 0 <= k < |parts| ==> sep !in parts[k]
  {
    if s == [] then [""]
    else
      var rest := Split(s[1..], sep);
      if s[0] == sep then [""] + rest
      else [[s[0]] + rest[0]] + rest[1..]
  }

  /** `parts.join(sep)`. */
  function Join(parts: seq<string>, sep: char): string
    requires |parts| >= 1
  {
    if |parts| == 1 then parts[0] else parts[0] + [sep] + Join(parts[1..], sep)
  }

  /** Splitting then joining gives the string back. */
  lemma {:induction false} JoinSplit(s: string, sep: char)
    ensures Join(Split(s, sep), sep) == s
  {
    if s != [] {
      var rest := Split(s[1..], sep);
      JoinSplit(s[1..], sep);
      if s[0] == sep {
        assert Split(s, sep)[1..] == rest;
      } else {
        var parts := Split(s, sep);
        assert parts[1..] == rest[1..];
        if |rest| == 1 {
          assert s == [s[0]] + rest[0];
        } else {
          assert rest == [rest[0]] + rest[1..];
          assert Join(rest, sep) == rest[0] + [sep] + Join(rest[1..], sep);
          assert s == [s[0]] + s[1..];
        }
      }
    }
  }

  /** Text without the separator is one part; otherwise the first part is what precedes
      the first separator and the other parts are those of what follows it. */
  lemma {:induction false} SplitAt(w: string, sep: char, tail: string)
    requires sep !in w
    ensures Split(w, sep) == [w]
    ensures Split(w + [sep] + tail, sep) == [w] + Split(tail, sep)
  {
    if w == [] {
      assert w + [sep] + tail == [sep] + tail;
      assert ([sep] + tail)[1..] == tail;
    } else {
      SplitAt(w[1..], sep, tail);
      assert (w + [sep] + tail)[1..] == w[1..] + [sep] + tail;
      assert w == [w[0]] + w[1..];
    }
  }

  /** The longest prefix of `s` holding no whitespace. */
  function LeadingWord(s: string): (w: string)
    ensures |w| <= |s| && w == s[..|w|]
    ensures forall i :: 0 <= i < |w| ==> !IsWhitespace(w[i])
    ensures |w| < |s| ==> IsWhitespace(s[|w|])
  {
    if s == [] || IsWhitespace(s[0]) then ""
    else [s[0]] + LeadingWord(s[1..])
  }

  /** `s.split(/\s+/)`: the pieces between runs of whitespace. */
  function SplitOnWhitespace(s: string): (parts: seq<string>)
    ensures |parts| >= 1
    ensures forall k :: 0 <= k < |parts| ==> forall i :: 0 <= i < |parts[k]| ==> !IsWhitespace(parts[k][i])
    decreases |s|
  {
    var w := LeadingWord(s);
    var r := s[|w|..];
    if r == [] then [w] else [w] + SplitOnWhitespace(TrimStart(r))
  }

  /** `s.trim().split(/\s+/)`: the words of `s`. */
  function Words(s: string): (parts: seq<string>)
    ensures |parts| >= 1
    ensures Trim(s) != [] ==> forall k :: 0 <= k < |parts| ==> parts[k] != []
  {
    var t := Trim(s);
    if t == [] then SplitOnWhitespace(t)
    else WordsNonEmpty(t); SplitOnWhitespace(t)
  }

  /** Splitting text that neither starts nor ends with whitespace yields no empty piece. */
  lemma {:induction false} WordsNonEmpty(t: string)
    requires t != [] && !IsWhitespace(t[0]) && !IsWhitespace(t[|t| - 1])
    ensures forall k :: 0 <= k < |SplitOnWhitespace(t)| ==> SplitOnWhitespace(t)[k] != []
    decreases |t|
  {
    var parts := SplitOnWhitespace(t);
    var w := LeadingWord(t);
    assert w != [] by { assert w == [t[0]] + LeadingWord(t[1..]); }
    var r := t[|w|..];
    if r != [] {
      assert r[|r| - 1] == t[|t| - 1];
      TrimStartKeepsLast(r);
      var t' := TrimStart(r);
      WordsNonEmpty(t');
      var tail := SplitOnWhitespace(t');
      assert parts == [w] + tail;
      ConsNonEmpty(w, tail);
    }
  }

  lemma ConsNonEmpty(w: string, tail: seq<string>)
    requires w != [] && forall k :: 0 <= k < |tail| ==> tail[k] != []
    ensures forall k :: 0 <= k < |[w] + tail| ==> ([w] + tail)[k] != []
  {
    forall k | 0 <= k < |[w] + tail| ensures ([w] + tail)[k] != [] {
      if k > 0 { assert ([w] + tail)[k] == tail[k - 1]; }
    }
  }

  /** Text free of line terminators: what `.` in a regular expression matches throughout. */
  predicate SingleLine(s: string) {
    forall k :: 0 <= k < |s| ==> !IsLineTerminator(s[k])
  }

  /** Text free of whitespace: a single word. */
  predicate NoWhitespace(s: string) {
    forall k :: 0 <= k < |s| ==> !IsWhitespace(s[k])
  }

  /** Text that neither starts nor ends with whitespace is its own trim. */
  lemma TrimKeeps(s: string)
    requires s == [] || (!IsWhitespace(s[0]) && !IsWhitespace(s[|s| - 1]))
    ensures TrimStart(s) == s && Trim(s) == s
  {
  }

  /** One whitespace character before a word is all `trimStart()` removes. */
  lemma TrimStartDropsOne(c: char, s: string)
    requires IsWhitespace(c) && s != [] && !IsWhitespace(s[0])
    ensures TrimStart([c] + s) == s
  {
  }

  /** The first word of a word followed by whitespace is that word. */
  lemma {:induction false} LeadingWordOf(w: string, c: char, t: string)
    requires NoWhitespace(w) && IsWhitespace(c)
    ensures LeadingWord(w + [c] + t) == w
  {
    var x := w + [c] + t;
    if w == [] {
      assert x[0] == c;
    } else {
      assert x[1..] == w[1..] + [c] + t;
      LeadingWordOf(w[1..], c, t);
      assert w == [w[0]] + w[1..];
    }
  }

  /** A whitespace-free text is its own first word. */
  lemma LeadingWordAll(w: string)
    requires NoWhitespace(w)
    ensures LeadingWord(w) == w
  {
  }

  /** A join starts with the first part. */
  lemma JoinFirst(parts: seq<string>, sep: char)
    requires |parts| >= 1 && parts[0] != []
    ensures Join(parts, sep) != [] && Join(parts, sep)[0] == parts[0][0]
  {
  }

  /** A join ends with the last part. */
  lemma {:induction false} JoinLast(parts: seq<string>, sep: char)
    requires |parts| >= 1 && parts[|parts| - 1] != []
    ensures var j := Join(parts, sep); var last := parts[|parts| - 1];
      j != [] && j[|j| - 1] == last[|last| - 1]
  {
    if |parts| > 1 {
      JoinLast(parts[1..], sep);
    }
  }

  /** Joining single-line parts with a separator that ends no line gives a single line. */
  lemma {:induction false} JoinSingleLine(parts: seq<string>, sep: char)
    requires |parts| >= 1 && !IsLineTerminator(sep)
    requires forall k :: 0 <= k < |parts| ==> SingleLine(parts[k])
    ensures SingleLine(Join(parts, sep))
  {
    if |parts| > 1 {
      JoinSingleLine(parts[1..], sep);
      var head := parts[0] + [sep];
      var tail := Join(parts[1..], sep);
      forall k | 0 <= k < |head + tail| ensures !IsLineTerminator((head + tail)[k]) {
        if k < |parts[0]| {
          assert (head + tail)[k] == parts[0][k];
        } else if k > |parts[0]| {
          assert (head + tail)[k] == tail[k - |head|];
        }
      }
    }
  }

  /** Words joined by spaces split back into those words. */
  lemma {:induction false} SplitJoinWords(words: seq<string>)
    requires |words| >= 1
    requires forall k :: 0 <= k < |words| ==> words[k] != [] && NoWhitespace(words[k])
    ensures SplitOnWhitespace(Join(words, ' ')) == words
  {
    if |words| == 1 {
      LeadingWordAll(words[0]);
    } else {
      var w := words[0];
      assert w != [] && NoWhitespace(w);
      var tail := words[1..];
      assert forall k :: 0 <= k < |tail| ==> tail[k] == words[k + 1];
      var rest := Join(tail, ' ');
      JoinFirst(tail, ' ');
      assert !IsWhitespace(rest[0]) by {
        assert rest[0] == words[1][0];
      }
      assert Join(words, ' ') == w + [' '] + rest;
      SplitSpaced(w, rest);
      SplitJoinWords(tail);
      assert words == [w] + tail;
    }
  }

  /** A word, one space and text starting with a word split into that word and the
      pieces of the text. */
  lemma SplitSpaced(w: string, rest: string)
    requires NoWhitespace(w) && rest != [] && !IsWhitespace(rest[0])
    ensures SplitOnWhitespace(w + [' '] + rest) == [w] + SplitOnWhitespace(rest)
  {
    var j := w + [' '] + rest;
    LeadingWordOf(w, ' ', rest);
    var r := j[|LeadingWord(j)|..];
    assert r == [' '] + rest;
    TrimStartDropsOne(' ', rest);
    assert TrimStart(r) == rest;
  }

  /** `s.trim().split(/\s+/)` of words joined by spaces gives the words back. */
  lemma WordsOfJoin(words: seq<string>)
    requires |words| >= 1
    requires forall k :: 0 <= k < |words| ==> words[k] != [] && NoWhitespace(words[k])
    ensures Words(Join(words, ' ')) == words
  {
    JoinFirst(words, ' ');
    JoinLast(words, ' ');
    var last := words[|words| - 1];
    assert !IsWhitespace(last[|last| - 1]);
    TrimKeeps(Join(words, ' '));
    SplitJoinWords(words);
  }
}
