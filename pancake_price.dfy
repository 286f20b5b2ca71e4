/** The on-chain price service of src/services/pancakePrice.ts: the multi-hop path encoding
    of the PancakeSwap V3 quoter, the decision between the direct USDT pool and the
    token → WBNB → USDT route, and the 30-second price cache. The chain itself (the factory's
    `getPool`, the quoter's two quote calls, an ERC-20 token's `decimals`) is a parameter of
    the service: each call either answers or fails. */
module PancakePrice {
  import opened Common

  const UsdtAddress: string := "0x55d398326f99059ff775485246999027b3197955"
  const WbnbAddress: string := "0xbb4CdB9CBd36B01bD1cBaEBF2De08d9173bc095c"
  /** ethers' `ZeroAddress`, what the factory reports for a pool that does not exist. */
  const ZeroAddress: string := "0x0000000000000000000000000000000000000000"

  /** `FEE_0_01_PERCENT`: the 0.01% fee tier, in hundredths of a basis point. */
  const Fee001Percent: nat := 100
  /** The fee pairs the multi-hop route tries, in order (the source lists only one). */
  const FeeOptions: seq<seq<nat>> := [[Fee001Percent, Fee001Percent]]
  /** The decimals assumed when a token's `decimals()` call fails. */
  const DefaultDecimals: nat := 18
  /** `CACHE_DURATION`: cached prices are served for 30 seconds. */
  const CacheDuration: int := 30_000
  /** The amount `getTokenPrice` quotes when none is given. */
  const DefaultAmount: string := "1"

  // ---------------------------------------------------------------------------
  // Hexadecimal text

  const HexDigits: string := "0123456789abcdef"

  predicate IsLowerHexDigit(c: char) {
    '0' <= c <= '9' || 'a' <= c <= 'f'
  }

  function DigitValue(c: char): (v: nat)
    ensures v < 16
  {
    if '0' <= c <= '9' then c as int - '0' as int
    else if 'a' <= c <= 'f' then c as int - 'a' as int + 10
    else 0
  }

  /** `n.toString(16)`: lower-case digits, most significant first, no leading zeros. */
  function ToHex(n: nat): (s: string)
    ensures |s| >= 1
    ensures forall i :: 0 <= i < |s| ==> IsLowerHexDigit(s[i])
  {
    if n < 16 then [HexDigits[n]] else ToHex(n / 16) + [HexDigits[n % 16]]
  }

  /** The number a string of lower-case hex digits denotes. */
  function HexValue(s: string): nat {
    if s == [] then 0 else HexValue(s[..|s| - 1]) * 16 + DigitValue(s[|s| - 1])
  }

  /** `s.padStart(width, '0')`. */
  function PadStart(s: string, width: nat): (r: string)
    ensures |r| == if |s| >= width then |s| else width
  {
    if |s| >= width then s else seq(width - |s|, _ => '0') + s
  }

  /** `fee.toString(16).padStart(6, '0')`: the fee as a 3-byte big-endian hex field. */
  function FeeHex(fee: nat): string {
    PadStart(ToHex(fee), 6)
  }

  /** `toString(16)` is read back by `HexValue`. */
  lemma {:induction false} ToHexRoundTrip(n: nat)
    ensures HexValue(ToHex(n)) == n
  {
    if n >= 16 {
      ToHexRoundTrip(n / 16);
      var s := ToHex(n);
      assert s[..|s| - 1] == ToHex(n / 16);
      assert DigitValue(s[|s| - 1]) == n % 16 by {
        assert s[|s| - 1] == HexDigits[n % 16];
      }
    } else {
      assert ToHex(n)[..0] == [];
    }
  }

  /** A number below `16^k` takes at most `k` hex digits. */
  lemma {:induction false} ToHexLength(n: nat, k: nat)
    requires k >= 1 && n < Pow(16, k)
    ensures |ToHex(n)| <= k
  {
    if n >= 16 {
      assert k >= 2;
      assert n / 16 < Pow(16, k - 1);
      ToHexLength(n / 16, k - 1);
    }
  }

  /** Leading zeros do not change the value. */
  lemma {:induction false} LeadingZeros(k: nat, s: string)
    ensures HexValue(seq(k, _ => '0') + s) == HexValue(s)
    decreases |s|, k
  {
    if s == [] {
      if k > 0 {
        var z := seq(k, _ => '0');
        assert z + s == z;
        assert z[..k - 1] == seq(k - 1, _ => '0');
        LeadingZeros(k - 1, []);
        assert seq(k - 1, _ => '0') + [] == seq(k - 1, _ => '0');
      }
    } else {
      var z := seq(k, _ => '0');
      assert (z + s)[..|z + s| - 1] == z + s[..|s| - 1];
      LeadingZeros(k, s[..|s| - 1]);
    }
  }

  /** A fee that fits in 24 bits takes exactly six hex digits and reads back as itself. */
  lemma FeeHexRoundTrip(fee: nat)
    requires fee < 0x100_0000
    ensures |FeeHex(fee)| == 6
    ensures forall i :: 0 <= i < 6 ==> IsLowerHexDigit(FeeHex(fee)[i])
    ensures HexValue(FeeHex(fee)) == fee
  {
    assert Pow(16, 6) == 0x100_0000 by {
      assert Pow(16, 2) == 256;
      assert Pow(16, 4) == 256 * 256 by { assert Pow(16, 4) == 16 * (16 * Pow(16, 2)); }
    }
    ToHexLength(fee, 6);
    ToHexRoundTrip(fee);
    var h := ToHex(fee);
    if |h| < 6 {
      LeadingZeros(6 - |h|, h);
    }
  }

  // ---------------------------------------------------------------------------
  // encodePath

  /** `s.replace(pattern, replacement)` with a string pattern: only the first occurrence. */
  function ReplaceFirst(s: string, pattern: string, replacement: string): string
    requires |pattern| > 0
  {
    if |s| < |pattern| then s
    else if s[..|pattern|] == pattern then replacement + s[|pattern|..]
    else [s[0]] + ReplaceFirst(s[1..], pattern, replacement)
  }

  /** `address.toLowerCase().replace('0x', '')`. */
  function Stripped(address: string): string {
    ReplaceFirst(Lower(address), "0x", "")
  }

  /** What a well-formed address looks like: 42 characters with a `0x` or `0X` prefix. */
  predicate AddressShaped(address: string) {
    |address| == 42 && address[0] == '0' && (address[1] == 'x' || address[1] == 'X')
  }

  /** For a well-formed address only the prefix goes: forty characters remain. */
  lemma StrippedAddress(address: string)
    requires AddressShaped(address)
    ensures Stripped(address) == Lower(address)[2..] && |Stripped(address)| == 40
  {
    var l := Lower(address);
    assert l[0] == '0' && l[1] == 'x';
    assert l[..2] == "0x";
  }

  /** Every address of the path, lower-cased and without its `0x`. */
  function StrippedAll(path: seq<string>): (parts: seq<string>)
    ensures |parts| == |path|
    ensures forall i :: 0 <= i < |path| ==> parts[i] == Stripped(path[i])
  {
    seq(|path|, i requires 0 <= i < |path| => Stripped(path[i]))
  }

  /** The hex body the loop builds from the stripped addresses and the fees: the first
      address, then each fee followed by the next address. */
  function Joined(parts: seq<string>, fees: seq<nat>): string
    requires |parts| == |fees| + 1
  {
    if fees == [] then parts[0]
    else Joined(parts[..|parts| - 1], fees[..|fees| - 1]) + FeeHex(fees[|fees| - 1]) + parts[|parts| - 1]
  }

  /** `encodePath(path, fees)`: fails unless there is one more address than fees. */
  function EncodedPath(path: seq<string>, fees: seq<nat>): (r: Result<string, string>)
    ensures r.Ok? <==> |path| == |fees| + 1
  {
    if |path| != |fees| + 1 then Err("path and fee lengths do not match")
    else Ok("0x" + Joined(StrippedAll(path), fees))
  }

  /** The loop of `encodePath`. */
  method EncodePath(path: seq<string>, fees: seq<nat>) returns (r: Result<string, string>)
    ensures r == EncodedPath(path, fees)
  {
    if |path| != |fees| + 1 {
      return Err("path and fee lengths do not match");
    }
    ghost var parts := StrippedAll(path);
    var encoded := Stripped(path[0]);
    for i := 0 to |fees|
      invariant encoded == Joined(parts[..i + 1], fees[..i])
    {
      JoinedStep(parts, fees, i);
      encoded := encoded + FeeHex(fees[i]);
      encoded := encoded + Stripped(path[i + 1]);
    }
    assert parts[..|fees| + 1] == parts && fees[..|fees|] == fees;
    return Ok("0x" + encoded);
  }

  /** One more hop of the loop: the next fee, then the next part. */
  lemma JoinedStep(parts: seq<string>, fees: seq<nat>, i: nat)
    requires |parts| == |fees| + 1 && i < |fees|
    ensures Joined(parts[..i + 2], fees[..i + 1]) == Joined(parts[..i + 1], fees[..i]) + FeeHex(fees[i]) + parts[i + 1]
  {
    assert parts[..i + 2][..i + 1] == parts[..i + 1] && fees[..i + 1][..i] == fees[..i];
  }

  /** Forty-character parts and fees that fit in 24 bits, one more part than fees. */
  predicate PartsShaped(parts: seq<string>, fees: seq<nat>) {
    && |parts| == |fees| + 1
    && (forall i :: 0 <= i < |parts| ==> |parts[i]| == 40)
    && (forall i :: 0 <= i < |fees| ==> fees[i] < 0x100_0000)
  }

  /** Dropping the last hop keeps the shape. */
  lemma PartsPrefix(parts: seq<string>, fees: seq<nat>)
    requires PartsShaped(parts, fees) && |fees| > 0
    ensures PartsShaped(parts[..|fees|], fees[..|fees| - 1])
  {
  }

  /** Each hop adds six fee digits and forty address digits. */
  lemma {:induction false} JoinedLength(parts: seq<string>, fees: seq<nat>)
    requires PartsShaped(parts, fees)
    ensures |Joined(parts, fees)| == 40 + 46 * |fees|
  {
    if fees != [] {
      PartsPrefix(parts, fees);
      JoinedLength(parts[..|fees|], fees[..|fees| - 1]);
      FeeHexRoundTrip(fees[|fees| - 1]);
    }
  }

  /** A slice inside the first part of a concatenation. */
  lemma SliceOfHead(a: string, b: string, i: nat, j: nat)
    requires i <= j <= |a|
    ensures (a + b)[i..j] == a[i..j]
  {
  }

  /** The second part of a concatenation, sliced out again. */
  lemma SliceOfTail(a: string, b: string)
    ensures (a + b)[|a|..|a| + |b|] == b
  {
  }

  /** Part `i` sits at offset `46·i`. */
  lemma {:induction false} JoinedPartAt(parts: seq<string>, fees: seq<nat>, i: nat)
    requires PartsShaped(parts, fees) && i < |parts|
    ensures |Joined(parts, fees)| == 40 + 46 * |fees|
    ensures Joined(parts, fees)[46 * i..46 * i + 40] == parts[i]
  {
    var n := |fees|;
    JoinedLength(parts, fees);
    if n == 0 {
      assert parts[0][0..40] == parts[0];
    } else {
      var parts', fees' := parts[..n], fees[..n - 1];
      PartsPrefix(parts, fees);
      JoinedLength(parts', fees');
      FeeHexRoundTrip(fees[n - 1]);
      var head := Joined(parts', fees');
      if i < n {
        JoinedPartAt(parts', fees', i);
        SliceOfHead(head, FeeHex(fees[n - 1]) + parts[n], 46 * i, 46 * i + 40);
        assert Joined(parts, fees) == head + (FeeHex(fees[n - 1]) + parts[n]);
      } else {
        SliceOfTail(head + FeeHex(fees[n - 1]), parts[n]);
      }
    }
  }

  /** Fee `i` sits right after part `i`, as six hex digits that read back as the fee. */
  lemma {:induction false} JoinedFeeAt(parts: seq<string>, fees: seq<nat>, i: nat)
    requires PartsShaped(parts, fees) && i < |fees|
    ensures |Joined(parts, fees)| == 40 + 46 * |fees|
    ensures HexValue(Joined(parts, fees)[46 * i + 40..46 * i + 46]) == fees[i]
  {
    var n := |fees|;
    JoinedLength(parts, fees);
    var parts', fees' := parts[..n], fees[..n - 1];
    PartsPrefix(parts, fees);
    JoinedLength(parts', fees');
    FeeHexRoundTrip(fees[n - 1]);
    var head := Joined(parts', fees');
    if i < n - 1 {
      JoinedFeeAt(parts', fees', i);
      SliceOfHead(head, FeeHex(fees[n - 1]) + parts[n], 46 * i + 40, 46 * i + 46);
      assert Joined(parts, fees) == head + (FeeHex(fees[n - 1]) + parts[n]);
    } else {
      SliceOfHead(head + FeeHex(fees[n - 1]), parts[n], 46 * i + 40, 46 * i + 46);
      SliceOfTail(head, FeeHex(fees[n - 1]));
    }
  }

  predicate WellFormedRoute(path: seq<string>, fees: seq<nat>) {
    && |path| == |fees| + 1
    && (forall i :: 0 <= i < |path| ==> AddressShaped(path[i]))
    && (forall i :: 0 <= i < |fees| ==> fees[i] < 0x100_0000)
  }

  /** The stripped parts of a well-formed route have the shape the layout lemmas ask for. */
  lemma StrippedRouteShaped(path: seq<string>, fees: seq<nat>)
    requires WellFormedRoute(path, fees)
    ensures PartsShaped(StrippedAll(path), fees)
    ensures forall i :: 0 <= i < |path| ==> StrippedAll(path)[i] == Lower(path[i])[2..]
  {
    var parts := StrippedAll(path);
    forall i | 0 <= i < |path|
      ensures parts[i] == Lower(path[i])[2..] && |parts[i]| == 40
    {
      StrippedAddress(path[i]);
    }
  }

  /** Address `i` of a well-formed route reads back, with its `0x`, as the lower-cased address. */
  lemma EncodedAddressAt(path: seq<string>, fees: seq<nat>, i: nat)
    requires WellFormedRoute(path, fees) && i < |path|
    ensures EncodedPath(path, fees).Ok?
    ensures |EncodedPath(path, fees).value| == 2 + 40 * |path| + 6 * |fees|
    ensures var e := EncodedPath(path, fees).value;
      "0x" + e[2 + 46 * i..2 + 46 * i + 40] == Lower(path[i])
  {
    var parts := StrippedAll(path);
    StrippedRouteShaped(path, fees);
    JoinedPartAt(parts, fees, i);
    var s := Joined(parts, fees);
    var e := "0x" + s;
    assert e[2 + 46 * i..2 + 46 * i + 40] == s[46 * i..46 * i + 40];
    StrippedAddress(path[i]);
    var l := Lower(path[i]);
    assert l[..2] == "0x";
    assert l == l[..2] + l[2..];
  }

  /** Fee `i` of a well-formed route reads back from its six hex digits. */
  lemma EncodedFeeAt(path: seq<string>, fees: seq<nat>, i: nat)
    requires WellFormedRoute(path, fees) && i < |fees|
    ensures EncodedPath(path, fees).Ok?
    ensures |EncodedPath(path, fees).value| == 2 + 40 * |path| + 6 * |fees|
    ensures var e := EncodedPath(path, fees).value;
      HexValue(e[2 + 46 * i + 40..2 + 46 * i + 46]) == fees[i]
  {
    var parts := StrippedAll(path);
    StrippedRouteShaped(path, fees);
    JoinedFeeAt(parts, fees, i);
    var s := Joined(parts, fees);
    var e := "0x" + s;
    assert e[2 + 46 * i + 40..2 + 46 * i + 46] == s[46 * i + 40..46 * i + 46];
  }

  /** For well-formed addresses and 24-bit fees the encoding is `0x`, then 40 hex digits per
      address and 6 per fee; each address and fee can be read back from its place. */
  lemma EncodedPathLayout(path: seq<string>, fees: seq<nat>)
    requires WellFormedRoute(path, fees)
    ensures EncodedPath(path, fees).Ok?
    ensures var e := EncodedPath(path, fees).value;
      && |e| == 2 + 40 * |path| + 6 * |fees|
      && e[..2] == "0x"
      && (forall i :: 0 <= i < |path| ==> "0x" + e[2 + 46 * i..2 + 46 * i + 40] == Lower(path[i]))
      && (forall i :: 0 <= i < |fees| ==> HexValue(e[2 + 46 * i + 40..2 + 46 * i + 46]) == fees[i])
  {
    var e := EncodedPath(path, fees).value;
    EncodedAddressAt(path, fees, 0);
    forall i | 0 <= i < |path|
      ensures "0x" + e[2 + 46 * i..2 + 46 * i + 40] == Lower(path[i])
    {
      EncodedAddressAt(path, fees, i);
    }
    forall i | 0 <= i < |fees|
      ensures HexValue(e[2 + 46 * i + 40..2 + 46 * i + 46]) == fees[i]
    {
      EncodedFeeAt(path, fees, i);
    }
  }

  // ---------------------------------------------------------------------------
  // Price discovery

  /** The chain calls the service makes; `None` is a call that throws. Quotes are already
      converted from 18-decimal fixed point. */
  datatype Chain = Chain(
    decimals: string -> Option<nat>,
    getPool: (string, string, nat) -> Option<string>,
    quoteExactInputSingle: (string, string, string, nat, nat) -> Option<real>,
    quoteExactInput: (string, string, nat) -> Option<real>)

  /** `getTokenDecimals`: the token's decimals, or 18 when the call fails. */
  function TokenDecimals(chain: Chain, contractAddress: string): (decimals: nat)
    ensures chain.decimals(contractAddress).Some? ==> decimals == chain.decimals(contractAddress).value
    ensures chain.decimals(contractAddress).None? ==> decimals == 18
  {
    match chain.decimals(contractAddress)
    case Some(d) => d
    case None => DefaultDecimals
  }

  /** `tryGetPrice`: the quote through the pool `tokenIn`/`tokenOut` at `fee`; nothing when the
      factory reports no pool or any call fails. */
  function TryGetPrice(chain: Chain, tokenIn: string, tokenOut: string, fee: nat, amount: string, decimals: nat): (r: Option<real>)
    ensures chain.getPool(tokenIn, tokenOut, fee) == Some(ZeroAddress) ==> r == None
    ensures chain.getPool(tokenIn, tokenOut, fee).None? ==> r == None
    ensures r.Some? ==> r == chain.quoteExactInputSingle(tokenIn, tokenOut, amount, decimals, fee)
  {
    match chain.getPool(tokenIn, tokenOut, fee)
    case None => None
    case Some(pool) =>
      if pool == ZeroAddress then None
      else chain.quoteExactInputSingle(tokenIn, tokenOut, amount, decimals, fee)
  }

  /** The first fee pair, from `options`, whose second pool exists and whose quote succeeds. */
  function FirstRoute(chain: Chain, token: string, amount: string, decimals: nat, options: seq<seq<nat>>): (r: Result<real, string>)
    requires forall k :: 0 <= k < |options| ==> |options[k]| == 2
  {
    if options == [] then Err("every multi-hop route failed")
    else
      var fees := options[0];
      var pool2 := chain.getPool(WbnbAddress, UsdtAddress, fees[1]);
      if pool2.None? || pool2 == Some(ZeroAddress) then FirstRoute(chain, token, amount, decimals, options[1..])
      else
        // Three addresses and two fees always encode.
        var encoded := EncodedPath([token, WbnbAddress, UsdtAddress], fees);
        match chain.quoteExactInput(encoded.value, amount, decimals)
          case None => FirstRoute(chain, token, amount, decimals, options[1..])
          case Some(usdtAmount) => Ok(usdtAmount)
  }

  /** `getTokenToUsdtViaMultiHop`: fails when the token has no WBNB pool, otherwise the first
      working fee pair's quote. */
  function MultiHopPrice(chain: Chain, token: string, amount: string, decimals: nat): Result<real, string> {
    var pool1 := chain.getPool(token, WbnbAddress, Fee001Percent);
    if pool1.None? then Err("pool lookup failed")
    else if pool1.value == ZeroAddress then Err("no token/WBNB pool")
    else FirstRoute(chain, token, amount, decimals, FeeOptions)
  }

  /** `getTokenPriceFromPancake`: the direct USDT pool at 0.01% when it quotes a positive value,
      otherwise the multi-hop route when it does, otherwise an error. */
  function PancakeQuote(chain: Chain, contractAddress: string, amount: string): (r: Result<real, string>)
    ensures r.Ok? ==> r.value > 0.0
  {
    var decimals := TokenDecimals(chain, contractAddress);
    var direct := TryGetPrice(chain, contractAddress, UsdtAddress, Fee001Percent, amount, decimals);
    if direct.Some? && direct.value > 0.0 then Ok(direct.value)
    else
      var viaWbnb := MultiHopPrice(chain, contractAddress, amount, decimals);
      if viaWbnb.Ok? && viaWbnb.value > 0.0 then Ok(viaWbnb.value)
      else Err("no usable pool or route")
  }

  /** The direct pool wins whenever it quotes a positive value; the route is used only when it
      does not, and the lookup fails only when neither gives a positive value. */
  lemma PancakeQuoteOrder(chain: Chain, contractAddress: string, amount: string)
    ensures var decimals := TokenDecimals(chain, contractAddress);
      var direct := TryGetPrice(chain, contractAddress, UsdtAddress, Fee001Percent, amount, decimals);
      var viaWbnb := MultiHopPrice(chain, contractAddress, amount, decimals);
      && (direct.Some? && direct.value > 0.0 ==> PancakeQuote(chain, contractAddress, amount) == Ok(direct.value))
      && (!(direct.Some? && direct.value > 0.0) && viaWbnb.Ok? && viaWbnb.value > 0.0 ==>
            PancakeQuote(chain, contractAddress, amount) == Ok(viaWbnb.value))
      && (PancakeQuote(chain, contractAddress, amount).Err? <==>
            !(direct.Some? && direct.value > 0.0) && !(viaWbnb.Ok? && viaWbnb.value > 0.0))
  {
  }

  /** The route is a token → WBNB → USDT path at the listed fees, and a well-formed token gives a
      path the quoter can read back. */
  lemma MultiHopPathReadable(token: string)
    requires AddressShaped(token)
    ensures forall k :: 0 <= k < |FeeOptions| ==> WellFormedRoute([token, WbnbAddress, UsdtAddress], FeeOptions[k])
  {
  }

  /** The multi-hop loop over the fee pairs. */
  method GetTokenToUsdtViaMultiHop(chain: Chain, token: string, amount: string, decimals: nat) returns (r: Result<real, string>)
    ensures r == MultiHopPrice(chain, token, amount, decimals)
  {
    var path := [token, WbnbAddress, UsdtAddress];
    var pool1 := chain.getPool(token, WbnbAddress, Fee001Percent);
    if pool1.None? {
      return Err("pool lookup failed");
    }
    if pool1.value == ZeroAddress {
      return Err("no token/WBNB pool");
    }
    for k := 0 to |FeeOptions|
      invariant FirstRoute(chain, token, amount, decimals, FeeOptions) == FirstRoute(chain, token, amount, decimals, FeeOptions[k..])
    {
      var fees := FeeOptions[k];
      var pool2 := chain.getPool(WbnbAddress, UsdtAddress, fees[1]);
      if pool2.None? || pool2.value == ZeroAddress {
        continue;
      }
      var encodedPath := EncodePath(path, fees);
      var quote := chain.quoteExactInput(encodedPath.value, amount, decimals);
      if quote.Some? {
        return Ok(quote.value);
      }
    }
    return Err("every multi-hop route failed");
  }

  /** `getTokenPriceFromPancake`. */
  method GetTokenPriceFromPancake(chain: Chain, contractAddress: string, amount: string) returns (r: Result<real, string>)
    ensures r == PancakeQuote(chain, contractAddress, amount)
  {
    var tokenDecimals := TokenDecimals(chain, contractAddress);
    var result := TryGetPrice(chain, contractAddress, UsdtAddress, Fee001Percent, amount, tokenDecimals);
    if result.Some? && result.value > 0.0 {
      return Ok(result.value);
    }
    var usdtPrice := GetTokenToUsdtViaMultiHop(chain, contractAddress, amount, tokenDecimals);
    if usdtPrice.Ok? && usdtPrice.value > 0.0 {
      return Ok(usdtPrice.value);
    }
    return Err("no usable pool or route");
  }

  // ---------------------------------------------------------------------------
  // The cache

  datatype CacheEntry = CacheEntry(price: real, timestamp: int)

  /** The cache key: the lower-cased address, `_`, and the amount string. */
  function CacheKey(contractAddress: string, amount: string): string {
    Lower(contractAddress) + "_" + amount
  }

  /** The index of the first `_` in `s`, or `|s|` when there is none. */
  function UnderscoreIndex(s: string): (i: nat)
    ensures i <= |s|
    ensures forall j :: 0 <= j < i ==> s[j] != '_'
    ensures i < |s| ==> s[i] == '_'
  {
    if s == [] then 0 else if s[0] == '_' then 0 else 1 + UnderscoreIndex(s[1..])
  }

  /** In a cache key built from an address without `_`, the first `_` is the separator. */
  lemma {:induction false} SeparatorIndex(address: string, amount: string)
    requires '_' !in address
    ensures UnderscoreIndex(address + "_" + amount) == |address|
  {
    var k := address + "_" + amount;
    if address == [] {
      assert k[0] == '_';
    } else {
      assert address[0] in address && k[0] == address[0];
      assert k[1..] == address[1..] + "_" + amount;
      SeparatorIndex(address[1..], amount);
    }
  }

  /** Lower-casing never produces a `_`. */
  lemma NoUnderscoreAfterLower(s: string)
    requires '_' !in s
    ensures '_' !in Lower(s)
  {
    forall i | 0 <= i < |s| ensures Lower(s)[i] != '_' {
      assert s[i] in s;
    }
  }

  /** Two lookups share a cache entry exactly when they are for the same address ignoring case
      and the same amount, as long as the addresses hold no `_` (hexadecimal addresses never
      do). */
  lemma CacheKeyDistinguishes(a1: string, amount1: string, a2: string, amount2: string)
    requires '_' !in a1 && '_' !in a2
    ensures CacheKey(a1, amount1) == CacheKey(a2, amount2) <==> Lower(a1) == Lower(a2) && amount1 == amount2
  {
    var k1, k2 := CacheKey(a1, amount1), CacheKey(a2, amount2);
    if k1 == k2 {
      NoUnderscoreAfterLower(a1);
      NoUnderscoreAfterLower(a2);
      SeparatorIndex(Lower(a1), amount1);
      SeparatorIndex(Lower(a2), amount2);
      assert |Lower(a1)| == |Lower(a2)|;
      assert Lower(a1) == k1[..|Lower(a1)|] && Lower(a2) == k2[..|Lower(a2)|];
      assert amount1 == k1[|Lower(a1)| + 1..] && amount2 == k2[|Lower(a2)| + 1..];
    }
  }

  /** An entry is served while it is younger than the cache duration. */
  predicate Fresh(entry: CacheEntry, now: int) {
    now - entry.timestamp < CacheDuration
  }

  /** `PancakePriceService`'s static state: the price cache and the keys of the requests in
      flight, over a given chain. */
  class PancakePriceService {
    var cache: map<string, CacheEntry>
    var pendingRequests: set<string>
    const chain: Chain

    /** Only positive prices are ever cached, and between calls no request is in flight. */
    predicate Valid()
      reads this
    {
      && (forall key :: key in cache ==> cache[key].price > 0.0)
      && pendingRequests == {}
    }

    constructor (chain: Chain)
      ensures Valid() && this.chain == chain && cache == map[] && pendingRequests == {}
    {
      this.chain := chain;
      cache := map[];
      pendingRequests := {};
    }

    /** `executeGetTokenPrice` completing at time `now`: the quote, cached when positive, or 0
        on any failure. */
    method ExecuteGetTokenPrice(contractAddress: string, amount: string, cacheKey: string, now: int) returns (price: real)
      requires forall key :: key in cache ==> cache[key].price > 0.0
      modifies this
      ensures forall key :: key in cache ==> cache[key].price > 0.0
      ensures pendingRequests == old(pendingRequests)
      ensures price == match PancakeQuote(chain, contractAddress, amount)
        case Ok(p) => p
        case Err(_) => 0.0
      ensures cache == if price > 0.0 then old(cache)[cacheKey := CacheEntry(price, now)] else old(cache)
    {
      var quote := GetTokenPriceFromPancake(chain, contractAddress, amount);
      if quote.Err? {
        return 0.0;
      }
      price := quote.value;
      if price > 0.0 {
        cache := cache[cacheKey := CacheEntry(price, now)];
      } else {
        return 0.0;
      }
    }

    /** `getTokenPrice(contractAddress, amount = "1")` asked at `now` and answered at
        `completedAt`: a fresh cached price is returned without a new quote; otherwise the quote
        is made. The clock parameters come first so that `amount` can keep its default. */
    method GetTokenPrice(now: int, completedAt: int, contractAddress: string, amount: string := DefaultAmount)
      returns (price: real)
      requires Valid()
      modifies this
      ensures Valid()
      ensures var key := CacheKey(contractAddress, amount);
        if key in old(cache) && Fresh(old(cache)[key], now) then
          price == old(cache)[key].price && cache == old(cache)
        else
          && price == (match PancakeQuote(chain, contractAddress, amount) case Ok(p) => p case Err(_) => 0.0)
          && cache == (if price > 0.0 then old(cache)[key := CacheEntry(price, completedAt)] else old(cache))
      ensures price >= 0.0
    {
      var cacheKey := CacheKey(contractAddress, amount);
      if cacheKey in cache && now - cache[cacheKey].timestamp < CacheDuration {
        return cache[cacheKey].price;
      }
      // Calls are taken one at a time, so no request for this key is in flight: the source's
      // wait for a pending request never happens here.
      pendingRequests := pendingRequests + {cacheKey};
      price := ExecuteGetTokenPrice(contractAddress, amount, cacheKey, completedAt);
      // The `finally` block drops the key again.
      pendingRequests := pendingRequests - {cacheKey};
    }

    /** `clearCache`. */
    method ClearCache()
      modifies this
      ensures Valid() && cache == map[] && pendingRequests == {}
    {
      cache := map[];
      pendingRequests := {};
    }
  }
}
