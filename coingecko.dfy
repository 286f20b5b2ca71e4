/** The market-data service of src/services/coingecko.ts (`MarketWebbService`): the BNB price
    with its fallback, the alpha token price list filtered to BSC, the lookup of requested
    contracts in that list, and the five-minute caches. Each HTTP response is a parameter
    (`Err` is a request that throws), and so is the clock reading of the call. */
module Coingecko {
  import opened Common

  /** `CACHE_DURATION`: five minutes, in milliseconds. */
  const CacheDuration: int := 5 * 60 * 1000
  /** The BNB price returned when the ticker cannot be fetched. */
  const DefaultBnbPrice: real := 600.0
  const DefaultBtcPrice: real := 95000.0
  const DefaultEthPrice: real := 3500.0
  /** The only chain whose tokens enter the price list. */
  const BscChainName: string := "BSC"

  /** `isCacheValid(timestamp)` at clock reading `now`. */
  predicate IsCacheValid(timestamp: int, now: int) {
    now - timestamp < CacheDuration
  }

  /** An entry stored at `t` is served for exactly five minutes: from `t` up to but not including
      `t + 300000`, and never again afterwards. */
  lemma CacheWindow(t: int, now: int)
    requires t <= now
    ensures IsCacheValid(t, now) <==> now < t + 300_000
    ensures IsCacheValid(t, now) ==> forall later :: t <= later <= now ==> IsCacheValid(t, later)
  {
  }

  // ---------------------------------------------------------------------------
  // Responses

  /** The fields of one entry of the alpha token list that the service reads; `price` is
      `parseFloat(token.price)`, with `None` for NaN. */
  datatype AlphaTokenData = AlphaTokenData(chainName: string, contractAddress: string, price: Option<real>)

  /** The token list response: its `success` flag and its `data`, which may be missing. */
  datatype AlphaTokenListResponse = AlphaTokenListResponse(success: bool, data: Option<seq<AlphaTokenData>>)

  datatype BnbCache = BnbCache(price: real, timestamp: int)
  datatype AlphaTokensCache = AlphaTokensCache(tokens: map<string, real>, timestamp: int)
  datatype MainCoinPrices = MainCoinPrices(btc: real, eth: real, bnb: real)

  // ---------------------------------------------------------------------------
  // The alpha price map

  /** A token that enters the price map: on BSC, with a numeric positive price. */
  predicate Listed(token: AlphaTokenData) {
    token.chainName == BscChainName && token.price.Some? && token.price.value > 0.0
  }

  /** The map the `filter` and `forEach` build: listed tokens keyed by lower-cased address, a
      later token overwriting an earlier one with the same key. */
  function PriceMapOf(tokens: seq<AlphaTokenData>): (m: map<string, real>)
    ensures forall k :: k in m ==> m[k] > 0.0
    ensures forall k :: k in m <==>
      exists i :: 0 <= i < |tokens| && Listed(tokens[i]) && Lower(tokens[i].contractAddress) == k
  {
    if tokens == [] then map[]
    else
      var front := tokens[..|tokens| - 1];
      var m := PriceMapOf(front);
      var token := tokens[|tokens| - 1];
      assert forall i :: 0 <= i < |front| ==> front[i] == tokens[i];
      if Listed(token) then m[Lower(token.contractAddress) := token.price.value] else m
  }

  /** Every entry of the map is the price of the last listed token with that key. */
  lemma {:induction false} PriceMapLastWins(tokens: seq<AlphaTokenData>, i: nat)
    requires i < |tokens| && Listed(tokens[i])
    requires forall j :: i < j < |tokens| && Listed(tokens[j]) ==>
      Lower(tokens[j].contractAddress) != Lower(tokens[i].contractAddress)
    ensures Lower(tokens[i].contractAddress) in PriceMapOf(tokens)
    ensures PriceMapOf(tokens)[Lower(tokens[i].contractAddress)] == tokens[i].price.value
  {
    var n := |tokens|;
    var front := tokens[..n - 1];
    var key := Lower(tokens[i].contractAddress);
    var last := tokens[n - 1];
    if i < n - 1 {
      assert front[i] == tokens[i];
      forall j | i < j < |front| && Listed(front[j])
        ensures Lower(front[j].contractAddress) != Lower(front[i].contractAddress)
      {
        assert front[j] == tokens[j];
      }
      PriceMapLastWins(front, i);
      var m := PriceMapOf(front);
      assert Listed(last) ==> Lower(last.contractAddress) != key;
      assert PriceMapOf(tokens) == if Listed(last) then m[Lower(last.contractAddress) := last.price.value] else m;
    } else {
      var m := PriceMapOf(front);
      assert PriceMapOf(tokens) == m[key := last.price.value];
    }
  }

  /** Tokens on other chains, and tokens whose price is NaN or not positive, do not change the
      map: appending one leaves it as it was. */
  lemma UnlistedIgnored(tokens: seq<AlphaTokenData>, token: AlphaTokenData)
    requires !Listed(token)
    ensures PriceMapOf(tokens + [token]) == PriceMapOf(tokens)
  {
    assert (tokens + [token])[..|tokens|] == tokens;
  }

  /** The `forEach` over the BSC tokens. The `filter` is folded into the loop's test, which gives
      the same map because the filter keeps the tokens' order. */
  method BuildPriceMap(tokens: seq<AlphaTokenData>) returns (priceMap: map<string, real>)
    ensures priceMap == PriceMapOf(tokens)
  {
    priceMap := map[];
    for i := 0 to |tokens|
      invariant priceMap == PriceMapOf(tokens[..i])
    {
      var token := tokens[i];
      assert tokens[..i + 1][..i] == tokens[..i];
      if token.chainName == BscChainName && token.price.Some? && token.price.value > 0.0 {
        priceMap := priceMap[Lower(token.contractAddress) := token.price.value];
      }
    }
    assert tokens[..|tokens|] == tokens;
  }

  /** The prices `getAlphaTokenPrices` returns: the cached map while it is valid; otherwise the
      freshly built map, or an empty map when the request throws, reports no success or has no
      data. */
  function FetchedAlphaPrices(cache: Option<AlphaTokensCache>, response: Result<AlphaTokenListResponse, string>, now: int): map<string, real> {
    if cache.Some? && IsCacheValid(cache.value.timestamp, now) then cache.value.tokens
    else if response.Err? || !response.value.success || response.value.data.None? then map[]
    else PriceMapOf(response.value.data.value)
  }

  /** The alpha cache after `getAlphaTokenPrices`: replaced only by a successful fetch. */
  function UpdatedAlphaCache(cache: Option<AlphaTokensCache>, response: Result<AlphaTokenListResponse, string>, now: int): Option<AlphaTokensCache> {
    if cache.Some? && IsCacheValid(cache.value.timestamp, now) then cache
    else if response.Err? || !response.value.success || response.value.data.None? then cache
    else Some(AlphaTokensCache(PriceMapOf(response.value.data.value), now))
  }

  /** A failed fetch returns an empty map and leaves the cache as it was; a successful one caches
      exactly the map it returns, stamped with the time of the call. */
  lemma AlphaFetchOutcome(cache: Option<AlphaTokensCache>, response: Result<AlphaTokenListResponse, string>, now: int)
    ensures !(cache.Some? && IsCacheValid(cache.value.timestamp, now)) ==>
      if response.Err? || !response.value.success || response.value.data.None? then
        FetchedAlphaPrices(cache, response, now) == map[] && UpdatedAlphaCache(cache, response, now) == cache
      else
        UpdatedAlphaCache(cache, response, now) == Some(AlphaTokensCache(FetchedAlphaPrices(cache, response, now), now))
    ensures cache.Some? && IsCacheValid(cache.value.timestamp, now) ==>
      FetchedAlphaPrices(cache, response, now) == cache.value.tokens && UpdatedAlphaCache(cache, response, now) == cache
  {
  }

  /** A cache written at `now` is served unchanged by any call within the next five minutes,
      whatever that call's response would have been. */
  lemma FreshAlphaCacheServed(cache: Option<AlphaTokensCache>, r1: Result<AlphaTokenListResponse, string>, r2: Result<AlphaTokenListResponse, string>, now: int, later: int)
    requires UpdatedAlphaCache(cache, r1, now).Some? && now <= later < now + CacheDuration
    requires UpdatedAlphaCache(cache, r1, now) != cache
    ensures FetchedAlphaPrices(UpdatedAlphaCache(cache, r1, now), r2, later) == FetchedAlphaPrices(cache, r1, now)
  {
  }

  // ---------------------------------------------------------------------------
  // The lookup of requested contracts

  /** The `forEach` of `getTokenPrices`: each requested address, lower-cased, that has a listed
      price. */
  function PricesFor(alpha: map<string, real>, addresses: seq<string>): (r: map<string, real>)
    ensures forall k :: k in r <==> k in alpha && exists i :: 0 <= i < |addresses| && Lower(addresses[i]) == k
    ensures forall k :: k in r ==> r[k] == alpha[k]
  {
    if addresses == [] then map[]
    else
      var front := addresses[..|addresses| - 1];
      var r := PricesFor(alpha, front);
      var key := Lower(addresses[|addresses| - 1]);
      assert forall i :: 0 <= i < |front| ==> front[i] == addresses[i];
      if key in alpha then r[key := alpha[key]] else r
  }

  /** The result is the list restricted to the lower-cased requests, so the order and repetition
      of the requests do not matter. */
  lemma PricesForRestriction(alpha: map<string, real>, addresses: seq<string>)
    ensures PricesFor(alpha, addresses) ==
      map k | k in alpha && (exists i :: 0 <= i < |addresses| && Lower(addresses[i]) == k) :: alpha[k]
  {
  }

  // ---------------------------------------------------------------------------
  // The service

  /** `MarketWebbService`'s static caches. */
  class MarketWebbService {
    var bnbPriceCache: Option<BnbCache>
    var alphaTokensCache: Option<AlphaTokensCache>

    /** The alpha cache only ever holds positive prices. */
    predicate Valid()
      reads this
    {
      alphaTokensCache.Some? ==> forall k :: k in alphaTokensCache.value.tokens ==> alphaTokensCache.value.tokens[k] > 0.0
    }

    constructor ()
      ensures Valid() && bnbPriceCache == None && alphaTokensCache == None
    {
      bnbPriceCache := None;
      alphaTokensCache := None;
    }

    /** `getBNBPrice` at `now`, with `response` the parsed ticker price or the error the
        request threw: the cached price while it is valid, else the fetched price (then cached),
        else 600. */
    method GetBNBPrice(response: Result<real, string>, now: int) returns (price: real)
      modifies this
      ensures alphaTokensCache == old(alphaTokensCache)
      ensures old(bnbPriceCache).Some? && IsCacheValid(old(bnbPriceCache).value.timestamp, now) ==>
        price == old(bnbPriceCache).value.price && bnbPriceCache == old(bnbPriceCache)
      ensures !(old(bnbPriceCache).Some? && IsCacheValid(old(bnbPriceCache).value.timestamp, now)) ==>
        match response
        case Ok(p) => price == p && bnbPriceCache == Some(BnbCache(p, now))
        case Err(_) => price == DefaultBnbPrice && bnbPriceCache == old(bnbPriceCache)
    {
      if bnbPriceCache.Some? && IsCacheValid(bnbPriceCache.value.timestamp, now) {
        return bnbPriceCache.value.price;
      }
      if response.Err? {
        return DefaultBnbPrice;
      }
      price := response.value;
      bnbPriceCache := Some(BnbCache(price, now));
    }

    /** `getMainCoinPrices`: fixed BTC and ETH prices and the BNB price of `getBNBPrice`. */
    method GetMainCoinPrices(response: Result<real, string>, now: int) returns (prices: MainCoinPrices)
      modifies this
      ensures prices.btc == 95000.0 && prices.eth == 3500.0
      ensures alphaTokensCache == old(alphaTokensCache)
      ensures old(bnbPriceCache).Some? && IsCacheValid(old(bnbPriceCache).value.timestamp, now) ==>
        prices.bnb == old(bnbPriceCache).value.price
      ensures !(old(bnbPriceCache).Some? && IsCacheValid(old(bnbPriceCache).value.timestamp, now)) ==>
        prices.bnb == match response case Ok(p) => p case Err(_) => DefaultBnbPrice
    {
      var bnbPrice := GetBNBPrice(response, now);
      prices := MainCoinPrices(DefaultBtcPrice, DefaultEthPrice, bnbPrice);
    }

    /** `getAlphaTokenPrices` at `now`. */
    method GetAlphaTokenPrices(response: Result<AlphaTokenListResponse, string>, now: int) returns (prices: map<string, real>)
      requires Valid()
      modifies this
      ensures Valid() && bnbPriceCache == old(bnbPriceCache)
      ensures prices == FetchedAlphaPrices(old(alphaTokensCache), response, now)
      ensures alphaTokensCache == UpdatedAlphaCache(old(alphaTokensCache), response, now)
      ensures forall k :: k in prices ==> prices[k] > 0.0
    {
      if alphaTokensCache.Some? && IsCacheValid(alphaTokensCache.value.timestamp, now) {
        return alphaTokensCache.value.tokens;
      }
      if response.Err? || !response.value.success || response.value.data.None? {
        // The thrown error is caught and an empty map returned.
        return map[];
      }
      var priceMap := BuildPriceMap(response.value.data.value);
      alphaTokensCache := Some(AlphaTokensCache(priceMap, now));
      return priceMap;
    }

    /** `getTokenPrices(contractAddresses)` at `now`: nothing is fetched for an empty request;
        otherwise each requested address that the alpha list prices, keyed lower-cased. */
    method GetTokenPrices(contractAddresses: seq<string>, response: Result<AlphaTokenListResponse, string>, now: int) returns (priceMap: map<string, real>)
      requires Valid()
      modifies this
      ensures Valid() && bnbPriceCache == old(bnbPriceCache)
      ensures contractAddresses == [] ==> priceMap == map[] && alphaTokensCache == old(alphaTokensCache)
      ensures contractAddresses != [] ==>
        && priceMap == PricesFor(FetchedAlphaPrices(old(alphaTokensCache), response, now), contractAddresses)
        && alphaTokensCache == UpdatedAlphaCache(old(alphaTokensCache), response, now)
      ensures forall k :: k in priceMap ==> priceMap[k] > 0.0
    {
      if |contractAddresses| == 0 {
        return map[];
      }
      var alphaTokenPrices := GetAlphaTokenPrices(response, now);
      priceMap := map[];
      for i := 0 to |contractAddresses|
        invariant priceMap == PricesFor(alphaTokenPrices, contractAddresses[..i])
      {
        var address := contractAddresses[i];
        assert contractAddresses[..i + 1][..i] == contractAddresses[..i];
        if Lower(address) in alphaTokenPrices {
          priceMap := priceMap[Lower(address) := alphaTokenPrices[Lower(address)]];
        }
      }
      assert contractAddresses[..|contractAddresses|] == contractAddresses;
    }

    /** `getCachedTokenPrice(contractAddress)`: the listed price of one contract, or none. */
    method GetCachedTokenPrice(contractAddress: string, response: Result<AlphaTokenListResponse, string>, now: int) returns (price: Option<real>)
      requires Valid()
      modifies this
      ensures Valid() && bnbPriceCache == old(bnbPriceCache)
      ensures alphaTokensCache == UpdatedAlphaCache(old(alphaTokensCache), response, now)
      ensures var alpha := FetchedAlphaPrices(old(alphaTokensCache), response, now);
        price == if Lower(contractAddress) in alpha then Some(alpha[Lower(contractAddress)]) else None
    {
      var prices := GetTokenPrices([contractAddress], response, now);
      // `prices.get(...) || null`: a zero price would also give null, but listed prices are
      // positive.
      if Lower(contractAddress) in prices && prices[Lower(contractAddress)] != 0.0 {
        price := Some(prices[Lower(contractAddress)]);
      } else {
        price := None;
      }
    }
  }
}
