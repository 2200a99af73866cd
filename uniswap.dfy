// The token registry, amount scaling, quote fallback and price cache of
// backend/src/uniswap.ts. The venue's HTTP reply and the clock are parameters.
module Uniswap {
  import opened Wrappers
  import opened Strings
  import opened Types

  datatype TokenEntry = TokenEntry(address: string, decimals: nat)

  /** The Sepolia token table, in declaration order. */
  const TokenTable: seq<(string, TokenEntry)> := [
    ("ETH", TokenEntry("0x0000000000000000000000000000000000000000", 18)),
    ("WETH", TokenEntry("0xfFf9976782d46CC05630D1f6eBAb18b2324d6B14", 18)),
    ("USDC", TokenEntry("0x1c7D4B196Cb0C7B01d743Fbc6116a902379C7238", 6)),
    ("UNI", TokenEntry("0x1f9840a85d5aF5bf1D1762F925BDADdC4201F984", 18))
  ]

  /** The mainnet token table, used when `mainnet` is asked for. */
  const MainnetTokenTable: seq<(string, TokenEntry)> := [
    ("ETH", TokenEntry("0x0000000000000000000000000000000000000000", 18)),
    ("WETH", TokenEntry("0xC02aaA39b223FE8D0A0e5C4F27eAD9083C756Cc2", 18)),
    ("USDC", TokenEntry("0xA0b86991c6218b36c1d19D4a2e9Eb0cE3606eB48", 6)),
    ("UNI", TokenEntry("0x1f9840a85d5aF5bf1D1762F925BDADdC4201F984", 18))
  ]

  const KnownSymbols: set<string> := {"ETH", "WETH", "USDC", "UNI"}

  /** The entry stored under `key`, as a property read on the table object. */
  function Lookup(table: seq<(string, TokenEntry)>, key: string): (r: Option<TokenEntry>)
    ensures r.Some? <==> exists i :: 0 <= i < |table| && table[i].0 == key
    ensures r.Some? ==> (key, r.value) in table
  {
    if |table| == 0 then None
    else if table[0].0 == key then Some(table[0].1)
    else Lookup(table[1..], key)
  }

  /** `getTokenAddress(symbol, mainnet)`: a case-insensitive lookup, null when unknown. */
  function GetTokenAddress(symbol: string, mainnet: bool): (r: Option<TokenEntry>)
    ensures r.Some? <==> Upper(symbol) in KnownSymbols
  {
    Lookup(if mainnet then MainnetTokenTable else TokenTable, Upper(symbol))
  }

  /** Symbols that agree after upper-casing resolve to the same entry. */
  lemma GetTokenAddressCaseInsensitive(a: string, b: string, mainnet: bool)
    requires Upper(a) == Upper(b)
    ensures GetTokenAddress(a, mainnet) == GetTokenAddress(b, mainnet)
  {
  }

  const WethAddress: string := "0xfFf9976782d46CC05630D1f6eBAb18b2324d6B14"

  // ---------------------------------------------------------------------------
  // Amounts

  /** `BigInt(text)` for a string: surrounding whitespace is ignored, the empty string is
      0, `0x`/`0o`/`0b` introduce hexadecimal, octal and binary digits, and otherwise an
      optional sign precedes decimal digits. Anything else throws a SyntaxError. */
  function StringToBigInt(text: string): (r: Result<int, string>)
    ensures Trim(text) == [] ==> r == Success(0)
    ensures AllDigits(Trim(text)) ==> r == Success(DecimalValue(Trim(text)))
    ensures r.Failure? ==> r.error == "SyntaxError"
  {
    IntegerLiteral(Trim(text))
  }

  /** The trimmed text as a `StringIntegerLiteral`. */
  function IntegerLiteral(t: string): (r: Result<int, string>)
    ensures AllDigits(t) ==> r == Success(DecimalValue(t))
    ensures r.Failure? ==> r.error == "SyntaxError"
  {
    if t == [] then Success(0)
    else if |t| >= 2 && t[0] == '0' && (t[1] == 'x' || t[1] == 'X') then RadixLiteral(t[2..], 16)
    else if |t| >= 2 && t[0] == '0' && (t[1] == 'o' || t[1] == 'O') then RadixLiteral(t[2..], 8)
    else if |t| >= 2 && t[0] == '0' && (t[1] == 'b' || t[1] == 'B') then RadixLiteral(t[2..], 2)
    else if t[0] == '-' || t[0] == '+' then
      var digits := t[1..];
      if digits != [] && AllDigits(digits) then
        Success(if t[0] == '-' then -(DecimalValue(digits) as int) else DecimalValue(digits))
      else Failure("SyntaxError")
    else if AllDigits(t) then Success(DecimalValue(t))
    else Failure("SyntaxError")
  }

  /** A plain digit string reads as its decimal value. */
  lemma StringToBigIntDigits(text: string)
    requires AllDigits(text)
    ensures StringToBigInt(text) == Success(DecimalValue(text))
  {
    NoWhitespaceTrims(text);
  }

  function RadixLiteral(digits: string, radix: nat): (r: Result<int, string>)
    requires 2 <= radix <= 16
    ensures r.Failure? ==> r.error == "SyntaxError"
  {
    if digits != [] && AllDigitsIn(digits, radix) then Success(ValueIn(digits, radix))
    else Failure("SyntaxError")
  }

  /** Digits hold no whitespace, so trimming leaves them alone. */
  lemma NoWhitespaceTrims(s: string)
    requires AllDigits(s)
    ensures Trim(s) == s
  {
    if s != [] {
      assert !IsWhitespace(s[0]);
      assert TrimStart(s) == s;
      assert !IsWhitespace(s[|s| - 1]);
    }
  }

  /** The fraction as `padEnd(decimals, '0').slice(0, decimals)` leaves it. */
  function FractionDigits(fraction: string, decimals: nat): (f: string)
    ensures |f| == decimals
    ensures forall i :: 0 <= i < decimals ==> f[i] == if i < |fraction| then fraction[i] else '0'
  {
    PadEnd(fraction, decimals, '0')[..decimals]
  }

  /** `parseAmount(amount, decimals)`: the text before the first '.', followed by up to
      `decimals` digits of the text between the first and second '.', zero-padded, read as
      one integer. */
  function ParseAmount(amount: string, decimals: nat): (r: Result<int, string>)
    ensures r.Failure? ==> r.error == "SyntaxError"
    ensures decimals == 0 ==> r == StringToBigInt(Split(amount, '.')[0])
  {
    var parts := Split(amount, '.');
    var whole := parts[0];
    var fraction := if |parts| > 1 then parts[1] else "";
    var digits := FractionDigits(fraction, decimals);
    assert decimals == 0 ==> whole + digits == whole;
    StringToBigInt(whole + digits)
  }

  /** A decimal amount is its whole part scaled by 10^decimals plus its fraction digits,
      padded or cut to exactly `decimals` digits. */
  lemma ParseAmountScales(whole: string, fraction: string, decimals: nat)
    requires AllDigits(whole) && AllDigits(fraction)
    ensures AllDigits(FractionDigits(fraction, decimals))
    ensures var p := ParseAmount(whole + "." + fraction, decimals);
      p.Success? && p.value == DecimalValue(whole) * Pow(10, decimals) + DecimalValue(FractionDigits(fraction, decimals))
  {
    var f := FractionDigits(fraction, decimals);
    assert AllDigits(f);
    assert '.' !in whole && '.' !in fraction;
    SplitAt(whole, '.', fraction);
    SplitAt(fraction, '.', "");
    assert whole + "." + fraction == whole + ['.'] + fraction;
    assert Split(whole + "." + fraction, '.') == [whole, fraction];
    assert ParseAmount(whole + "." + fraction, decimals) == StringToBigInt(whole + f);
    DecimalConcat(whole, f);
    assert DecimalValue(whole + f) == DecimalValue(whole) * Pow(10, decimals) + DecimalValue(f);
    StringToBigIntDigits(whole + f);
    var p := ParseAmount(whole + "." + fraction, decimals);
    assert p.Success? && p.value == DecimalValue(whole + f);
  }

  /** Without a '.', the amount is the whole number times 10^decimals. */
  lemma ParseAmountWhole(whole: string, decimals: nat)
    requires AllDigits(whole)
    ensures ParseAmount(whole, decimals) == Success(DecimalValue(whole) * Pow(10, decimals))
  {
    var f := FractionDigits("", decimals);
    assert f == Repeat('0', decimals);
    ZerosValue(decimals);
    assert '.' !in whole;
    SplitAt(whole, '.', "");
    assert Split(whole, '.') == [whole];
    assert ParseAmount(whole, decimals) == StringToBigInt(whole + f);
    DecimalConcat(whole, f);
    var w := DecimalValue(whole);
    assert DecimalValue(f) == 0;
    assert DecimalValue(whole + f) == w * Pow(10, decimals) + 0;
    StringToBigIntDigits(whole + f);
  }

  /** Fraction digits beyond `decimals` are dropped, not rounded. */
  lemma ParseAmountTruncates(whole: string, fraction: string, decimals: nat)
    requires '.' !in whole && '.' !in fraction && decimals <= |fraction|
    ensures ParseAmount(whole + "." + fraction, decimals) == ParseAmount(whole + "." + fraction[..decimals], decimals)
  {
    SplitAt(whole, '.', fraction);
    SplitAt(whole, '.', fraction[..decimals]);
    SplitAt(fraction, '.', "");
    SplitAt(fraction[..decimals], '.', "");
    assert whole + "." + fraction == whole + ['.'] + fraction;
    assert whole + "." + fraction[..decimals] == whole + ['.'] + fraction[..decimals];
    assert FractionDigits(fraction, decimals) == FractionDigits(fraction[..decimals], decimals);
  }

  /** Whatever follows a second '.' is ignored. */
  lemma ParseAmountIgnoresTail(whole: string, fraction: string, tail: string, decimals: nat)
    requires '.' !in whole && '.' !in fraction
    ensures ParseAmount(whole + "." + fraction + "." + tail, decimals) == ParseAmount(whole + "." + fraction, decimals)
  {
    SplitAt(whole, '.', fraction + "." + tail);
    SplitAt(fraction, '.', tail);
    SplitAt(whole, '.', fraction);
    assert whole + "." + fraction + "." + tail == whole + ['.'] + (fraction + ['.'] + tail);
    assert whole + "." + fraction == whole + ['.'] + fraction;
  }

  // ---------------------------------------------------------------------------
  // Quotes

  /** The `quote` object of a venue reply (each field may be missing). */
  datatype VenueQuote = VenueQuote(amountOut: Option<string>, priceImpact: Option<string>, gasFee: Option<string>, route: Option<string>)

  /** A reply body: not JSON at all, or JSON with or without a `quote` object. */
  datatype VenueBody = Unparsable | Parsed(quote: Option<VenueQuote>)

  /** What the POST to the venue's `/quote` endpoint came back with. */
  datatype VenueReply = FetchThrew | Replied(ok: bool, body: VenueBody)

  /** The token addresses and base-unit amount sent to the venue. */
  datatype QuoteRequest = QuoteRequest(tokenIn: string, tokenOut: string, amount: int)

  /** `getQuote`'s outcome: one of the two errors it throws, or the request it sent and
      the quote it returned. */
  datatype QuoteOutcome =
    | UnknownToken(message: string)
    | BadAmount(error: string)
    | Quoted(request: QuoteRequest, quote: Quote)

  /** The static price table of the mock quote, in tenths of a dollar. */
  function MockPriceTenths(upperSymbol: string): Option<nat> {
    if upperSymbol == "ETH" || upperSymbol == "WETH" then Some(24000)
    else if upperSymbol == "USDC" then Some(10)
    else if upperSymbol == "UNI" then Some(75)
    else None
  }

  /** The token description both quote shapes give: the table's address and decimals (or
      '' and 18), the upper-cased symbol, and the symbol as passed for the name. */
  function Info(symbol: string): TokenInfo {
    var entry := GetTokenAddress(symbol, false);
    TokenInfo(
      if entry.Some? then entry.value.address else "",
      Upper(symbol),
      symbol,
      if entry.Some? then entry.value.decimals else 18)
  }

  predicate EndsWith(s: string, suffix: string) {
    |suffix| <= |s| && s[|s| - |suffix|..] == suffix
  }

  /** `getMockQuote`. */
  function MockQuote(tokenIn: string, tokenOut: string, amount: string, now: string): (q: Quote)
    ensures EndsWith(q.route, " (mock)")
    ensures q.tokenIn.symbol == Upper(tokenIn) && q.tokenOut.symbol == Upper(tokenOut)
    ensures q.amountIn == amount
  {
    var inPrice := MockPriceTenths(Upper(tokenIn)).GetOr(10);
    var outPrice := MockPriceTenths(Upper(tokenOut)).GetOr(10);
    Quote(
      Info(tokenIn),
      Info(tokenOut),
      amount,
      MockAmount(amount, inPrice, outPrice, if Upper(tokenOut) == "USDC" then 2 else 6),
      "< 0.01",
      "~0.001 ETH",
      Upper(tokenIn) + " → " + Upper(tokenOut) + " (mock)",
      now)
  }

  /** `formatQuoteResponse`: venue fields with their defaults; a present `amountOut` that
      is not an integer makes `BigInt` throw. */
  function FormatQuoteResponse(vq: Option<VenueQuote>, tokenIn: string, tokenOut: string, amount: string, now: string): (r: Result<Quote, string>)
    ensures r.Success? ==> r.value.tokenIn == Info(tokenIn) && r.value.tokenOut == Info(tokenOut) && r.value.amountIn == amount
    ensures vq.None? ==> r.Success? && r.value.route == tokenIn + " → " + tokenOut
  {
    var outputDecimals := Info(tokenOut).decimals;
    var rawOut := if vq.Some? && vq.value.amountOut.Some? && vq.value.amountOut.value != "" then Some(vq.value.amountOut.value) else None;
    var parsedOut := if rawOut.Some? then StringToBigInt(rawOut.value) else Success(0);
    if parsedOut.Failure? then Failure(parsedOut.error)
    else
      Success(Quote(
        Info(tokenIn),
        Info(tokenOut),
        amount,
        if rawOut.Some? then VenueAmount(parsedOut.value, outputDecimals) else NoAmount,
        if vq.Some? then vq.value.priceImpact.GetOr("< 0.01") else "< 0.01",
        if vq.Some? then vq.value.gasFee.GetOr("~0.001 ETH") else "~0.001 ETH",
        if vq.Some? then vq.value.route.GetOr(tokenIn + " → " + tokenOut) else tokenIn + " → " + tokenOut,
        now))
  }

  /** `getQuote(tokenIn, tokenOut, amount)` against the venue's reply `venue`. */
  function GetQuote(tokenInSymbol: string, tokenOutSymbol: string, amount: string, venue: VenueReply, now: string): (r: QuoteOutcome)
    ensures r.UnknownToken? <==> !(Upper(tokenInSymbol) in KnownSymbols && Upper(tokenOutSymbol) in KnownSymbols)
    ensures r.UnknownToken? ==>
      r.message == "Unknown token: " + if Upper(tokenInSymbol) !in KnownSymbols then tokenInSymbol else tokenOutSymbol
    ensures r.Quoted? ==>
      && GetTokenAddress(tokenInSymbol, false).Some?
      && r.request.tokenIn == (if Upper(tokenInSymbol) == "ETH" then WethAddress else GetTokenAddress(tokenInSymbol, false).value.address)
      && r.request.tokenOut == (if Upper(tokenOutSymbol) == "ETH" then WethAddress else GetTokenAddress(tokenOutSymbol, false).value.address)
      && ParseAmount(amount, GetTokenAddress(tokenInSymbol, false).value.decimals) == Success(r.request.amount)
    ensures r.BadAmount? <==>
      && GetTokenAddress(tokenInSymbol, false).Some? && GetTokenAddress(tokenOutSymbol, false).Some?
      && ParseAmount(amount, GetTokenAddress(tokenInSymbol, false).value.decimals).Failure?
    ensures r.Quoted? && (venue.FetchThrew? || !venue.ok) ==> r.quote == MockQuote(tokenInSymbol, tokenOutSymbol, amount, now)
    ensures r.Quoted? && venue.Replied? && venue.ok && venue.body.Unparsable? ==>
      r.quote == MockQuote(tokenInSymbol, tokenOutSymbol, amount, now)
    ensures r.Quoted? && venue.Replied? && venue.ok && venue.body.Parsed? ==>
      var f := FormatQuoteResponse(venue.body.quote, tokenInSymbol, tokenOutSymbol, amount, now);
      r.quote == if f.Success? then f.value else MockQuote(tokenInSymbol, tokenOutSymbol, amount, now)
  {
    var tokenIn := GetTokenAddress(tokenInSymbol, false);
    var tokenOut := GetTokenAddress(tokenOutSymbol, false);
    if tokenIn.None? || tokenOut.None? then
      UnknownToken("Unknown token: " + if tokenIn.None? then tokenInSymbol else tokenOutSymbol)
    else
      var inputAddress := if Upper(tokenInSymbol) == "ETH" then GetTokenAddress("WETH", false).value.address else tokenIn.value.address;
      var outputAddress := if Upper(tokenOutSymbol) == "ETH" then GetTokenAddress("WETH", false).value.address else tokenOut.value.address;
      match ParseAmount(amount, tokenIn.value.decimals)
      case Failure(e) => BadAmount(e)
      case Success(raw) =>
        var mock := MockQuote(tokenInSymbol, tokenOutSymbol, amount, now);
        var quote :=
          match venue
          case FetchThrew => mock
          case Replied(ok, body) =>
            if !ok then mock
            else match body
              case Unparsable => mock
              case Parsed(vq) =>
                match FormatQuoteResponse(vq, tokenInSymbol, tokenOutSymbol, amount, now)
                case Success(q) => q
                case Failure(_) => mock;
        Quoted(QuoteRequest(inputAddress, outputAddress, raw), quote)
  }

  /** The errors are decided before any request: they do not depend on the venue's reply. */
  lemma GetQuoteErrorsPrecedeRequest(tokenIn: string, tokenOut: string, amount: string, v1: VenueReply, v2: VenueReply, now: string)
    ensures GetQuote(tokenIn, tokenOut, amount, v1, now).Quoted? == GetQuote(tokenIn, tokenOut, amount, v2, now).Quoted?
    ensures !GetQuote(tokenIn, tokenOut, amount, v1, now).Quoted? ==>
      GetQuote(tokenIn, tokenOut, amount, v1, now) == GetQuote(tokenIn, tokenOut, amount, v2, now)
  {
  }

  // ---------------------------------------------------------------------------
  // Prices

  /** A sidebar price. `parseFloat(quote.amountOut)` is not modelled: a quoted price is kept
      as the amount it is read from; a fixed price is in tenths of a dollar. */
  datatype Price = QuotedPrice(amountOut: AmountOut) | FixedPrice(tenths: nat)

  datatype CacheEntry = CacheEntry(price: Price, timestamp: int)

  const PriceTtlMs: int := 60000

  /** The price `getTokenPrice` hands back when `getQuote` throws. */
  function FallbackPrice(symbol: string): Price {
    FixedPrice(MockPriceTenths(Upper(symbol)).GetOr(0))
  }

  /** Upper-casing leaves text without lower-case ASCII letters alone. */
  lemma UpperFixes(s: string)
    requires forall i :: 0 <= i < |s| ==> !('a' <= s[i] <= 'z')
    ensures Upper(s) == s
  {
  }

  /** A known symbol always gets a quote against USDC for one unit. */
  lemma KnownSymbolQuotes(symbol: string, venue: VenueReply, now: string)
    requires Upper(symbol) in KnownSymbols
    ensures GetQuote(symbol, "USDC", "1", venue, now).Quoted?
  {
    UpperFixes("USDC");
    var d := GetTokenAddress(symbol, false).value.decimals;
    assert AllDigits("1");
    ParseAmountWhole("1", d);
  }

  /** `getQuote(symbol, 'USDC', '1')` throws only for an unknown symbol, so the mock-price
      fallback of `getTokenPrice` only ever yields 0. */
  lemma FallbackPriceIsZero(symbol: string, venue: VenueReply, now: string)
    ensures GetQuote(symbol, "USDC", "1", venue, now).Quoted? || FallbackPrice(symbol) == FixedPrice(0)
  {
    if Upper(symbol) in KnownSymbols {
      KnownSymbolQuotes(symbol, venue, now);
    }
  }

  class PriceCache {
    /** `priceCache`, keyed by the symbol exactly as passed. */
    var entries: map<string, CacheEntry>

    constructor ()
      ensures entries == map[]
    {
      entries := map[];
    }

    /** `getTokenPrice(symbol)` at time `now`, with `venue` the reply to the quote it may
        request and `writtenAt` the clock reading taken when the result is cached. */
    method GetTokenPrice(symbol: string, now: int, venue: VenueReply, quotedAt: string, writtenAt: int) returns (price: Price)
      modifies this
      ensures symbol in old(entries) && now - old(entries)[symbol].timestamp < PriceTtlMs ==>
        price == old(entries)[symbol].price && entries == old(entries)
      ensures !(symbol in old(entries) && now - old(entries)[symbol].timestamp < PriceTtlMs) ==>
        var q := GetQuote(symbol, "USDC", "1", venue, quotedAt);
        if q.Quoted? then
          price == QuotedPrice(q.quote.amountOut) && entries == old(entries)[symbol := CacheEntry(price, writtenAt)]
        else
          price == FixedPrice(0) && entries == old(entries)
    {
      if symbol in entries && now - entries[symbol].timestamp < PriceTtlMs {
        return entries[symbol].price;
      }
      var q := GetQuote(symbol, "USDC", "1", venue, quotedAt);
      if q.Quoted? {
        price := QuotedPrice(q.quote.amountOut);
        entries := entries[symbol := CacheEntry(price, writtenAt)];
      } else {
        FallbackPriceIsZero(symbol, venue, quotedAt);
        price := FallbackPrice(symbol);
      }
    }
  }

  // ---------------------------------------------------------------------------
  // Token list

  /** `getAvailableTokens()`: one entry per table row, in table order. */
  function GetAvailableTokens(): (r: seq<TokenInfo>)
    ensures |r| == |TokenTable|
    ensures forall i :: 0 <= i < |r| ==> r[i].symbol == TokenTable[i].0 && r[i].name == r[i].symbol
    ensures forall i :: 0 <= i < |r| ==> r[i].address == TokenTable[i].1.address && r[i].decimals == TokenTable[i].1.decimals
  {
    seq(|TokenTable|, i requires 0 <= i < |TokenTable| =>
      TokenInfo(TokenTable[i].1.address, TokenTable[i].0, TokenTable[i].0, TokenTable[i].1.decimals))
  }

  /** Every listed token resolves through `getTokenAddress` to the listed address and
      decimals. */
  lemma AvailableTokensResolve()
    ensures forall t :: t in GetAvailableTokens() ==>
      t.symbol in KnownSymbols && GetTokenAddress(t.symbol, false) == Some(TokenEntry(t.address, t.decimals))
  {
    var r := GetAvailableTokens();
    forall t | t in r
      ensures t.symbol in KnownSymbols && GetTokenAddress(t.symbol, false) == Some(TokenEntry(t.address, t.decimals))
    {
      var i :| 0 <= i < |r| && r[i] == t;
      UpperFixes(t.symbol);
      assert TokenTable[i].1 == TokenEntry(t.address, t.decimals);
    }
  }

  /** Every known symbol is listed. */
  lemma KnownSymbolsListed()
    ensures forall s :: s in KnownSymbols ==> exists i :: 0 <= i < |GetAvailableTokens()| && GetAvailableTokens()[i].symbol == s
  {
    var r := GetAvailableTokens();
    assert r[0].symbol == "ETH" && r[1].symbol == "WETH" && r[2].symbol == "USDC" && r[3].symbol == "UNI";
  }
}
