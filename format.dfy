// The display helpers of web/src/lib/utils/format.ts. `generateDisplayName` is written
// out identically in backend/src/socket.ts; both sides use the one definition here.
module Format {
  import opened Wrappers
  import opened Strings
  import opened Seqs

  // ---------------------------------------------------------------------------
  // parseInt

  /** The longest prefix of `s` made of digits in base `radix`. */
  function LeadingDigitsIn(s: string, radix: nat): (d: string)
    requires 2 <= radix <= 16
    ensures |d| <= |s| && d == s[..|d|]
    ensures AllDigitsIn(d, radix)
    ensures |d| < |s| ==> DigitIn(s[|d|], radix) < 0
  {
    if s == [] || DigitIn(s[0], radix) < 0 then ""
    else [s[0]] + LeadingDigitsIn(s[1..], radix)
  }

  /** `parseInt(s, 16)`, with None for NaN: leading whitespace, an optional sign and an
      optional `0x` are skipped, then as many hexadecimal digits as there are are read. */
  function ParseHexInt(s: string): (r: Option<int>)
    ensures r.Some? && r.value < 0 ==> TrimStart(s) != [] && TrimStart(s)[0] == '-'
    ensures s != [] && DigitIn(s[0], 16) >= 0 && !(|s| >= 2 && s[0] == '0' && (s[1] == 'x' || s[1] == 'X'))
            ==> r.Some? && r.value >= 0
  {
    HexStart(s);
    var t := TrimStart(s);
    var negative := t != [] && t[0] == '-';
    var u := if t != [] && (t[0] == '-' || t[0] == '+') then t[1..] else t;
    var v := if |u| >= 2 && u[0] == '0' && (u[1] == 'x' || u[1] == 'X') then u[2..] else u;
    var digits := LeadingDigitsIn(v, 16);
    if digits == [] then None
    else Some(if negative then -(ValueIn(digits, 16) as int) else ValueIn(digits, 16))
  }

  /** Text that starts with a hexadecimal digit has no leading whitespace or sign to skip,
      and its leading digit run is not empty. */
  lemma HexStart(s: string)
    ensures s != [] && DigitIn(s[0], 16) >= 0 ==>
      TrimStart(s) == s && s[0] != '-' && s[0] != '+' && LeadingDigitsIn(s, 16) != []
  {
    if s != [] && DigitIn(s[0], 16) >= 0 {
      assert !IsWhitespace(s[0]);
      assert TrimStart(s) == s;
    }
  }

  /** A non-empty run of hexadecimal digits whose second one is not an `x` (it cannot be)
      reads as its value. */
  lemma ParseHexDigits(s: string)
    requires s != [] && AllDigitsIn(s, 16)
    ensures ParseHexInt(s) == Some(ValueIn(s, 16))
  {
    assert DigitIn(s[0], 16) >= 0;
    assert !IsWhitespace(s[0]) && s[0] != '-' && s[0] != '+';
    assert TrimStart(s) == s;
    assert !(|s| >= 2 && s[0] == '0' && (s[1] == 'x' || s[1] == 'X')) by {
      if |s| >= 2 { assert DigitIn(s[1], 16) >= 0; }
    }
    AllLeadingDigits(s, 16);
    assert LeadingDigitsIn(s, 16) == s;
  }

  /** A string of digits is its own leading run. */
  lemma {:induction false} AllLeadingDigits(s: string, radix: nat)
    requires 2 <= radix <= 16 && AllDigitsIn(s, radix)
    ensures LeadingDigitsIn(s, radix) == s
  {
    if s != [] {
      AllLeadingDigits(s[1..], radix);
      assert s == [s[0]] + s[1..];
    }
  }

  /** JavaScript's `%`: the remainder takes the sign of the dividend. */
  function JsRem(a: int, b: nat): (r: int)
    requires b > 0
    ensures -(b as int) < r < b
    ensures a >= 0 ==> r == a % b
    ensures r != 0 ==> (r < 0 <==> a < 0)
  {
    if a >= 0 then a % b else -((-a) % b)
  }

  // ---------------------------------------------------------------------------
  // Display names

  const Adjectives: seq<string> := ["Swift", "Bold", "Wise", "Iron", "Neon", "Void", "Flux", "Grid"]
  const Nouns: seq<string> := ["Voter", "Whale", "Degen", "Signer", "Holder", "Agent", "Node", "Proxy"]

  /** `words[i]` interpolated into a template: a missing entry prints as "undefined". */
  function WordAt(words: seq<string>, i: Option<int>): string {
    if i.Some? && 0 <= i.value < |words| then words[i.value] else "undefined"
  }

  /** A word a display name is made of: an entry of `words`, or "undefined" for an index
      the list does not have. */
  predicate NameWord(words: seq<string>, w: string) {
    w == "undefined" || w in words
  }

  /** `generateDisplayName(address)`: an adjective followed by a noun. */
  function GenerateDisplayName(address: string): (r: string)
    ensures exists a, n :: NameWord(Adjectives, a) && NameWord(Nouns, n) && r == a + n
  {
    var hash := Slice(Lower(address), 2, 10);
    var a := ParseHexInt(Slice(hash, 0, 4));
    var n := ParseHexInt(Slice(hash, 4, 8));
    var adjIdx := if a.Some? then Some(JsRem(a.value, |Adjectives|)) else None;
    var nounIdx := if n.Some? then Some(JsRem(n.value, |Nouns|)) else None;
    var adj := WordAt(Adjectives, adjIdx);
    var noun := WordAt(Nouns, nounIdx);
    assert NameWord(Adjectives, adj) && NameWord(Nouns, noun);
    adj + noun
  }

  /** Two addresses that agree, lower-cased, on characters 2 to 9 get the same name. */
  lemma DisplayNameDependsOnHash(a: string, b: string)
    requires |a| >= 10 && |b| >= 10 && Lower(a)[2..10] == Lower(b)[2..10]
    ensures GenerateDisplayName(a) == GenerateDisplayName(b)
  {
    assert Slice(Lower(a), 2, 10) == Slice(Lower(b), 2, 10);
  }

  /** For an address whose characters 2 to 9 are hexadecimal digits, the adjective is chosen
      by the first four of them modulo 8 and the noun by the next four modulo 8. */
  lemma DisplayNameOfHexAddress(address: string)
    requires |address| >= 10 && AllDigitsIn(Lower(address)[2..10], 16)
    ensures AllDigitsIn(Lower(address)[2..6], 16) && AllDigitsIn(Lower(address)[6..10], 16)
    ensures GenerateDisplayName(address)
         == Adjectives[ValueIn(Lower(address)[2..6], 16) % 8] + Nouns[ValueIn(Lower(address)[6..10], 16) % 8]
  {
    var low := Lower(address);
    var hash := Slice(low, 2, 10);
    assert hash == low[2..10];
    var h1 := Slice(hash, 0, 4);
    var h2 := Slice(hash, 4, 8);
    assert h1 == low[2..6];
    assert h2 == low[6..10];
    assert AllDigitsIn(h1, 16) && AllDigitsIn(h2, 16);
    ParseHexDigits(h1);
    ParseHexDigits(h2);
    assert JsRem(ValueIn(h1, 16), 8) == ValueIn(h1, 16) % 8;
    assert JsRem(ValueIn(h2, 16), 8) == ValueIn(h2, 16) % 8;
  }

  // ---------------------------------------------------------------------------
  // Addresses and times

  /** `truncateAddress(address, chars)`. */
  function TruncateAddress(address: string, chars: int): (r: string)
    ensures address == "" ==> r == ""
    ensures address != "" && chars > 0 ==>
      r == address[..Min(chars + 2, |address|)] + "..." + address[|address| - Min(chars, |address|)..]
    ensures address != "" && chars == 0 ==> r == address[..Min(2, |address|)] + "..." + address
  {
    if address == "" then ""
    else Slice(address, 0, chars + 2) + "..." + SliceFrom(address, -chars)
  }

  /** With room for both ends, a truncated address is `chars + 2` leading characters, three
      dots and `chars` trailing characters. */
  lemma TruncateAddressLength(address: string, chars: nat)
    requires 0 < chars && chars + 2 <= |address|
    ensures |TruncateAddress(address, chars)| == 2 * chars + 5
    ensures StartsWith(TruncateAddress(address, chars), address[..chars + 2])
  {
    var r := TruncateAddress(address, chars);
    assert r[..chars + 2] == address[..chars + 2];
  }

  const MinuteMs: int := 60000
  const HourMs: int := 3600000
  const DayMs: int := 86400000

  /** `formatTimestamp` for a time `diff` milliseconds ago; None stands for the locale
      date of anything a day old or more. */
  function FormatTimestamp(diff: int): (r: Option<string>)
    ensures r == Some("just now") <==> diff < MinuteMs
    ensures r.Some? && diff >= MinuteMs ==> |r.value| > 4 && r.value[|r.value| - 4..] == " ago"
  {
    if diff < MinuteMs then Some("just now")
    else if diff < HourMs then Ago(NatToString(diff / MinuteMs) + "m")
    else if diff < DayMs then Ago(NatToString(diff / HourMs) + "h")
    else None
  }

  /** A count followed by " ago"; it is never "just now", which does not end that way. */
  function Ago(count: string): (r: Option<string>)
    ensures r.Some? && |r.value| == |count| + 4 && r.value[|r.value| - 4..] == " ago" && r != Some("just now")
  {
    var text := count + " ago";
    assert text[|text| - 4..] == " ago";
    assert "just now"[4..] != " ago";
    Some(text)
  }

  /** Anything less than a minute ago, the future included, is "just now". */
  lemma JustNow(diff: int)
    requires diff < MinuteMs
    ensures FormatTimestamp(diff) == Some("just now")
  {
  }

  /** Within the hour the text is a minute count from 1 to 59 followed by "m ago", and
      the count reads back as the whole minutes elapsed. */
  lemma MinutesAgo(diff: int)
    requires MinuteMs <= diff < HourMs
    ensures var m := diff / MinuteMs;
      && 1 <= m <= 59
      && FormatTimestamp(diff) == Some(NatToString(m) + "m ago")
      && StartsWith(FormatTimestamp(diff).value, NatToString(m))
      && DecimalValue(NatToString(m)) * MinuteMs <= diff < (DecimalValue(NatToString(m)) + 1) * MinuteMs
  {
    var m := diff / MinuteMs;
    var text := NatToString(m) + "m ago";
    assert NatToString(m) + "m" + " ago" == text;
    assert text[..|NatToString(m)|] == NatToString(m);
  }

  /** Within the day the text is an hour count from 1 to 23 followed by "h ago", and the
      count reads back as the whole hours elapsed. */
  lemma HoursAgo(diff: int)
    requires HourMs <= diff < DayMs
    ensures var h := diff / HourMs;
      && 1 <= h <= 23
      && FormatTimestamp(diff) == Some(NatToString(h) + "h ago")
      && StartsWith(FormatTimestamp(diff).value, NatToString(h))
      && DecimalValue(NatToString(h)) * HourMs <= diff < (DecimalValue(NatToString(h)) + 1) * HourMs
  {
    var h := diff / HourMs;
    var text := NatToString(h) + "h ago";
    assert NatToString(h) + "h" + " ago" == text;
    assert text[..|NatToString(h)|] == NatToString(h);
  }

  /** A day or more ago falls through to the locale date. */
  lemma LocaleDateBranch(diff: int)
    ensures FormatTimestamp(diff).None? <==> diff >= DayMs
  {
  }
}
