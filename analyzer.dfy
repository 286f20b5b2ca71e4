/** The trade-analysis engine of src/services/analyzer.ts: the class TransactionAnalyzer, its
    price lookups, the reconstruction of swaps from token transfers grouped by transaction
    hash, the alpha classification, and the PNL aggregation over router transfers. */
module Analyzer {
  import opened Common
  import opened Types
  import Scoring

  /** BINANCE_DEX_ROUTER, lower-cased once at load time. */
  const BinanceDexRouter: string := Lower("0xb300000b72DEAEb607a12d5f54773D1C19c7028d")

  /** The BNB price that gas costs are valued at, whatever the live price (line 333). */
  const GasBnbPrice: real := 600.0

  /** `Math.pow(10, 18)`: wei per BNB. */
  const WeiPerBnb: nat := 1_000_000_000_000_000_000

  /** The initial value of the `bnbPrice` field, kept until `updateRealTimePrices` runs. */
  const InitialBnbPrice: real := 600.0

  // ---------------------------------------------------------------------------
  // Amounts and token kinds

  /** `x / 10^decimals`, one decimal place at a time. */
  function ShiftDecimals(x: real, decimals: nat): (r: real)
    ensures x >= 0.0 ==> r >= 0.0 && (r > 0.0 <==> x > 0.0)
  {
    if decimals == 0 then x else ShiftDecimals(x, decimals - 1) / 10.0
  }

  lemma {:induction false} ShiftDecimalsDivides(x: real, decimals: nat)
    ensures ShiftDecimals(x, decimals) * Pow(10, decimals) as real == x
  {
    if decimals > 0 {
      ShiftDecimalsDivides(x, decimals - 1);
      var p := Pow(10, decimals - 1) as real;
      assert Pow(10, decimals) as real == 10.0 * p;
      calc {
        ShiftDecimals(x, decimals) * Pow(10, decimals) as real;
        (ShiftDecimals(x, decimals - 1) / 10.0) * (10.0 * p);
        ShiftDecimals(x, decimals - 1) * p;
      }
    }
  }

  /** `parseFloat(value) / Math.pow(10, parseInt(tokenDecimal))`, exact. */
  function Amount(t: TokenTransaction): (r: real)
    ensures r >= 0.0 && (r > 0.0 <==> t.value > 0)
  {
    ShiftDecimals(t.value as real, t.tokenDecimal)
  }

  /** The amount is the raw value divided by ten to the power of the token's decimals. */
  lemma AmountIsScaledValue(t: TokenTransaction)
    ensures Amount(t) == t.value as real / Pow(10, t.tokenDecimal) as real
  {
    ShiftDecimalsDivides(t.value as real, t.tokenDecimal);
  }

  /** `isStableCoin`: the lower-cased address is a STABLE_TOKENS entry (the entries are already
      lower-case, so lower-casing them as well changes nothing: `StableCoinAsWritten`). */
  predicate IsStableCoin(contractAddress: string) {
    Lower(contractAddress) in StableTokens
  }

  /** The `=== STABLE_TOKENS.WBNB.toLowerCase()` test of the source. */
  predicate IsWbnb(contractAddress: string) {
    Lower(contractAddress) == WBNB
  }

  lemma StableCoinAsWritten(c: string)
    ensures IsStableCoin(c) <==> exists i | 0 <= i < |StableTokens| :: Lower(StableTokens[i]) == Lower(c)
  {
    StableTokensShape();
    LoweredListMembership(StableTokens, Lower(c));
  }

  lemma WbnbAsWritten(c: string)
    ensures IsWbnb(c) <==> Lower(c) == Lower(WBNB)
  {
    WbnbIsLower();
  }

  /** The stablecoins are exactly USDT, USDC and WBNB, in any letter case. */
  lemma StableCoins(c: string)
    ensures IsStableCoin(c) <==> Lower(c) == USDT || Lower(c) == USDC || Lower(c) == WBNB
  {
  }

  /** Because STABLE_TOKENS lists WBNB, every WBNB test the source makes after a stablecoin test
      is already decided: WBNB is a stablecoin. */
  lemma WbnbIsStableCoin(c: string)
    requires IsWbnb(c)
    ensures IsStableCoin(c)
  {
    assert StableTokens[2] == Lower(c);
  }

  // ---------------------------------------------------------------------------
  // Legs of a swap

  /** `tokenTxs.filter(tx => tx.from.toLowerCase() === user)`. */
  function SentBy(legs: seq<TokenTransaction>, user: string): (r: seq<TokenTransaction>)
    ensures forall t :: t in r <==> t in legs && Lower(t.from) == user
  {
    if legs == [] then []
    else (if Lower(legs[0].from) == user then [legs[0]] else []) + SentBy(legs[1..], user)
  }

  /** `tokenTxs.filter(tx => tx.to.toLowerCase() === user)`. */
  function ReceivedBy(legs: seq<TokenTransaction>, user: string): (r: seq<TokenTransaction>)
    ensures forall t :: t in r <==> t in legs && Lower(t.to) == user
  {
    if legs == [] then []
    else (if Lower(legs[0].to) == user then [legs[0]] else []) + ReceivedBy(legs[1..], user)
  }

  /** Filtering distributes over concatenation: the kept transfers stay in the group's order. */
  lemma {:induction false} SentByAppend(a: seq<TokenTransaction>, b: seq<TokenTransaction>, user: string)
    ensures SentBy(a + b, user) == SentBy(a, user) + SentBy(b, user)
  {
    if a == [] {
      assert a + b == b;
    } else {
      assert (a + b)[1..] == a[1..] + b;
      SentByAppend(a[1..], b, user);
    }
  }

  lemma {:induction false} ReceivedByAppend(a: seq<TokenTransaction>, b: seq<TokenTransaction>, user: string)
    ensures ReceivedBy(a + b, user) == ReceivedBy(a, user) + ReceivedBy(b, user)
  {
    if a == [] {
      assert a + b == b;
    } else {
      assert (a + b)[1..] == a[1..] + b;
      ReceivedByAppend(a[1..], b, user);
    }
  }

  /** The first position of `x` in `s`. */
  ghost function FirstPosition<T>(s: seq<T>, x: T): (i: nat)
    requires x in s
    ensures i < |s| && s[i] == x && x !in s[..i]
  {
    if s[0] == x then 0
    else
      var i := FirstPosition(s[1..], x);
      assert s[..i + 1] == [s[0]] + s[1..][..i];
      i + 1
  }

  /** The transfers kept from a prefix of the group are a prefix of those kept from it all. */
  lemma SentByPrefix(group: seq<TokenTransaction>, s: nat, user: string)
    requires s <= |group|
    ensures
      var before := SentBy(group[..s], user);
      |before| <= |SentBy(group, user)| && SentBy(group, user)[..|before|] == before
  {
    SentByAppend(group[..s], group[s..], user);
    assert group == group[..s] + group[s..];
  }

  lemma ReceivedByPrefix(group: seq<TokenTransaction>, s: nat, user: string)
    requires s <= |group|
    ensures
      var before := ReceivedBy(group[..s], user);
      |before| <= |ReceivedBy(group, user)| && ReceivedBy(group, user)[..|before|] == before
  {
    ReceivedByAppend(group[..s], group[s..], user);
    assert group == group[..s] + group[s..];
  }

  /** Order argument shared by both sides: the chosen leg `kept[k]` first occurs in the group at
      `s`, and the legs kept from the group before `s` form a prefix of `kept` drawn from
      `group[..s]`. So that prefix ends before `k`, and each of its legs is strictly smaller. */
  lemma KeptBeforeIsSmaller(group: seq<TokenTransaction>, kept: seq<TokenTransaction>,
                            before: seq<TokenTransaction>, s: nat)
    requires 0 < |kept| && s < |group|
    requires group[s] == kept[LargestIndex(kept)] && group[s] !in group[..s]
    requires |before| <= |kept| && kept[..|before|] == before
    requires forall x :: x in before ==> x in group[..s]
    ensures forall x :: x in before ==> Amount(x) < Amount(group[s])
  {
    var k := LargestIndex(kept);
    forall j | 0 <= j < |before| ensures kept[j] != kept[k] {
      assert kept[j] == before[j];
    }
    forall x | x in before ensures Amount(x) < Amount(group[s]) {
      var j :| 0 <= j < |before| && before[j] == x;
      assert kept[j] == x;
    }
  }

  /** The sold leg is, in the group's own order, the first of the user's outgoing transfers of
      largest amount: every outgoing transfer before it is strictly smaller. */
  lemma SoldLegEarliest(group: seq<TokenTransaction>, user: string)
    requires |SentBy(group, user)| > 0
    ensures
      var t := LargestLeg(SentBy(group, user));
      exists s :: (0 <= s < |group| && group[s] == t
        && forall i :: 0 <= i < s && Lower(group[i].from) == user ==> Amount(group[i]) < Amount(t))
  {
    var kept := SentBy(group, user);
    var t := LargestLeg(kept);
    var s := FirstPosition(group, t);
    var before := SentBy(group[..s], user);
    SentByPrefix(group, s, user);
    KeptBeforeIsSmaller(group, kept, before, s);
    forall i | 0 <= i < s && Lower(group[i].from) == user
      ensures Amount(group[i]) < Amount(t)
    {
      assert group[i] in group[..s];
    }
  }

  /** The bought leg is, in the group's own order, the first of the user's incoming transfers
      of largest amount. */
  lemma BoughtLegEarliest(group: seq<TokenTransaction>, user: string)
    requires |ReceivedBy(group, user)| > 0
    ensures
      var t := LargestLeg(ReceivedBy(group, user));
      exists s :: (0 <= s < |group| && group[s] == t
        && forall i :: 0 <= i < s && Lower(group[i].to) == user ==> Amount(group[i]) < Amount(t))
  {
    var kept := ReceivedBy(group, user);
    var t := LargestLeg(kept);
    var s := FirstPosition(group, t);
    var before := ReceivedBy(group[..s], user);
    ReceivedByPrefix(group, s, user);
    KeptBeforeIsSmaller(group, kept, before, s);
    forall i | 0 <= i < s && Lower(group[i].to) == user
      ensures Amount(group[i]) < Amount(t)
    {
      assert group[i] in group[..s];
    }
  }

  /** The position the source's `reduce` settles on: it keeps the running maximum and replaces
      it only by a strictly larger amount, so it lands on the FIRST leg of largest amount. */
  function LargestIndex(legs: seq<TokenTransaction>): (k: nat)
    requires |legs| > 0
    ensures k < |legs|
    ensures forall j :: 0 <= j < |legs| ==> Amount(legs[j]) <= Amount(legs[k])
    ensures forall j :: 0 <= j < k ==> Amount(legs[j]) < Amount(legs[k])
  {
    if |legs| == 1 then 0
    else
      var m := LargestIndex(legs[..|legs| - 1]);
      if Amount(legs[|legs| - 1]) > Amount(legs[m]) then |legs| - 1 else m
  }

  /** The dominant leg of one side of a swap. */
  function LargestLeg(legs: seq<TokenTransaction>): TokenTransaction
    requires |legs| > 0
  {
    legs[LargestIndex(legs)]
  }

  datatype Legs = Legs(sell: TokenTransaction, buy: TokenTransaction)

  /** The sell and buy legs of the transfers of one hash, or None when the group is dropped:
      no main transaction, fewer than two transfers, or the main transaction's sender neither
      sends nor receives any of them. On each side the largest amount wins. */
  function ParseLegs(mainTx: Option<Transaction>, group: seq<TokenTransaction>): (r: Option<Legs>)
    ensures r.None? <==>
      || mainTx.None?
      || |group| < 2
      || (forall t :: t in group ==> Lower(t.from) != Lower(mainTx.value.from))
      || (forall t :: t in group ==> Lower(t.to) != Lower(mainTx.value.from))
    ensures r.Some? ==>
      var user := Lower(mainTx.value.from);
      && r.value.sell in group && Lower(r.value.sell.from) == user
      && r.value.buy in group && Lower(r.value.buy.to) == user
  {
    if mainTx.None? || |group| < 2 then None
    else
      var user := Lower(mainTx.value.from);
      var fromTxs := SentBy(group, user);
      var toTxs := ReceivedBy(group, user);
      if |fromTxs| == 0 || |toTxs| == 0 then None
      else
        LargestLegIsMaximal(fromTxs);
        LargestLegIsMaximal(toTxs);
        Some(Legs(LargestLeg(fromTxs), LargestLeg(toTxs)))
  }

  /** On each side the leg kept is one of largest amount among the user's outgoing (incoming)
      transfers of the group. */
  lemma ParseLegsPicksLargest(mainTx: Option<Transaction>, group: seq<TokenTransaction>)
    requires ParseLegs(mainTx, group).Some?
    ensures
      var legs := ParseLegs(mainTx, group).value;
      var user := Lower(mainTx.value.from);
      && (forall t :: t in group && Lower(t.from) == user ==> Amount(t) <= Amount(legs.sell))
      && (forall t :: t in group && Lower(t.to) == user ==> Amount(t) <= Amount(legs.buy))
    ensures
      var legs := ParseLegs(mainTx, group).value;
      var user := Lower(mainTx.value.from);
      exists s :: (0 <= s < |group| && group[s] == legs.sell
        && forall i :: 0 <= i < s && Lower(group[i].from) == user ==> Amount(group[i]) < Amount(legs.sell))
    ensures
      var legs := ParseLegs(mainTx, group).value;
      var user := Lower(mainTx.value.from);
      exists s :: (0 <= s < |group| && group[s] == legs.buy
        && forall i :: 0 <= i < s && Lower(group[i].to) == user ==> Amount(group[i]) < Amount(legs.buy))
  {
    var user := Lower(mainTx.value.from);
    LargestLegIsMaximal(SentBy(group, user));
    LargestLegIsMaximal(ReceivedBy(group, user));
    SoldLegEarliest(group, user);
    BoughtLegEarliest(group, user);
  }

  lemma LargestLegIsMaximal(legs: seq<TokenTransaction>)
    requires |legs| > 0
    ensures LargestLeg(legs) in legs
    ensures forall t :: t in legs ==> Amount(t) <= Amount(LargestLeg(legs))
  {
    forall t | t in legs ensures Amount(t) <= Amount(LargestLeg(legs)) {
      var j :| 0 <= j < |legs| && legs[j] == t;
    }
  }

  /** The trade record built from the two legs (the timestamp is the sell leg's). */
  function TradeDetail(hash: string, legs: Legs, usdValue: real): AlphaTradeDetail {
    AlphaTradeDetail(
      hash, legs.sell.contractAddress, legs.buy.contractAddress, legs.sell.value, legs.buy.value,
      legs.sell.tokenSymbol, legs.buy.tokenSymbol, usdValue, legs.sell.timeStamp)
  }

  // ---------------------------------------------------------------------------
  // Maps keyed by transaction hash

  /** `transactionMap`: `set` in list order, so the LAST transaction with a hash wins. */
  function TxMapOf(transactions: seq<Transaction>): map<string, Transaction> {
    if transactions == [] then map[]
    else
      var last := transactions[|transactions| - 1];
      TxMapOf(transactions[..|transactions| - 1])[last.hash := last]
  }

  function Lookup(txMap: map<string, Transaction>, hash: string): Option<Transaction> {
    if hash in txMap then Some(txMap[hash]) else None
  }

  lemma {:induction false} TxMapLastWins(transactions: seq<Transaction>, hash: string)
    ensures hash in TxMapOf(transactions) <==> exists i :: 0 <= i < |transactions| && transactions[i].hash == hash
    ensures hash in TxMapOf(transactions) ==>
      exists i :: 0 <= i < |transactions| && transactions[i] == TxMapOf(transactions)[hash]
        && transactions[i].hash == hash
        && forall j :: i < j < |transactions| ==> transactions[j].hash != hash
  {
    if transactions != [] {
      var n := |transactions| - 1;
      var prefix := transactions[..n];
      TxMapLastWins(prefix, hash);
      assert forall i :: 0 <= i < n ==> prefix[i] == transactions[i];
      if transactions[n].hash != hash && hash in TxMapOf(transactions) {
        var i :| 0 <= i < n && prefix[i] == TxMapOf(prefix)[hash] && prefix[i].hash == hash
          && forall j :: i < j < n ==> prefix[j].hash != hash;
        assert transactions[i] == TxMapOf(transactions)[hash];
      }
    }
  }

  /** `transactions.find(tx => tx.hash === hash)`: the FIRST transaction with the hash. */
  function FindTx(transactions: seq<Transaction>, hash: string): (r: Option<Transaction>)
    ensures r.None? <==> forall tx :: tx in transactions ==> tx.hash != hash
    ensures r.Some? ==> r.value in transactions && r.value.hash == hash
    ensures r.Some? ==> exists k :: (0 <= k < |transactions| && transactions[k] == r.value
                                     && forall j :: 0 <= j < k ==> transactions[j].hash != hash)
  {
    if transactions == [] then None
    else if transactions[0].hash == hash then Some(transactions[0])
    else
      var r := FindTx(transactions[1..], hash);
      assert r.Some? ==> exists k :: (0 <= k < |transactions| && transactions[k] == r.value
                                       && forall j :: 0 <= j < k ==> transactions[j].hash != hash)
      by {
        if r.Some? {
          var k :| 0 <= k < |transactions| - 1 && transactions[1..][k] == r.value
            && forall j :: 0 <= j < k ==> transactions[1..][j].hash != hash;
          assert transactions[k + 1] == r.value;
          assert forall j :: 1 <= j < k + 1 ==> transactions[j] == transactions[1..][j - 1];
        }
      }
      r
  }

  /** One step of the grouping loop: append the transfer to its hash's list. */
  function AddToGroup(groups: map<string, seq<TokenTransaction>>, t: TokenTransaction): map<string, seq<TokenTransaction>> {
    groups[t.hash := (if t.hash in groups then groups[t.hash] else []) + [t]]
  }

  /** `tokenTxByHash` after the grouping loop over `transfers`. */
  function GroupsOf(transfers: seq<TokenTransaction>): map<string, seq<TokenTransaction>> {
    if transfers == [] then map[]
    else AddToGroup(GroupsOf(transfers[..|transfers| - 1]), transfers[|transfers| - 1])
  }

  /** The iteration order of `tokenTxByHash`: its hashes by first occurrence. */
  function HashOrder(transfers: seq<TokenTransaction>): seq<string> {
    if transfers == [] then []
    else
      var order := HashOrder(transfers[..|transfers| - 1]);
      var h := transfers[|transfers| - 1].hash;
      if h in order then order else order + [h]
  }

  function GroupAt(groups: map<string, seq<TokenTransaction>>, hash: string): seq<TokenTransaction> {
    if hash in groups then groups[hash] else []
  }

  /** The transfers carrying `hash`, in list order. */
  function WithHash(transfers: seq<TokenTransaction>, hash: string): (r: seq<TokenTransaction>)
    ensures forall t :: t in r <==> t in transfers && t.hash == hash
  {
    if transfers == [] then []
    else
      var last := transfers[|transfers| - 1];
      WithHash(transfers[..|transfers| - 1], hash) + (if last.hash == hash then [last] else [])
  }

  lemma {:induction false} NoneWithHash(transfers: seq<TokenTransaction>, hash: string)
    requires forall t :: t in transfers ==> t.hash != hash
    ensures WithHash(transfers, hash) == []
  {
    if transfers != [] {
      assert transfers[|transfers| - 1] in transfers;
      NoneWithHash(transfers[..|transfers| - 1], hash);
    }
  }

  lemma {:induction false} HashOrderMatchesGroups(transfers: seq<TokenTransaction>)
    ensures forall h :: h in GroupsOf(transfers) <==> h in HashOrder(transfers)
    ensures NoDuplicates(HashOrder(transfers))
  {
    if transfers != [] {
      HashOrderMatchesGroups(transfers[..|transfers| - 1]);
    }
  }

  /** Each group holds the transfers of its hash, in list order. */
  lemma {:induction false} GroupsAreWithHash(transfers: seq<TokenTransaction>)
    ensures forall h :: h in GroupsOf(transfers) ==> GroupsOf(transfers)[h] == WithHash(transfers, h)
  {
    if transfers != [] {
      var n := |transfers| - 1;
      var prefix := transfers[..n];
      GroupsAreWithHash(prefix);
      assert transfers == prefix + [transfers[n]];
      forall h | h in GroupsOf(transfers) ensures GroupsOf(transfers)[h] == WithHash(transfers, h) {
        if h != transfers[n].hash {
          assert h in GroupsOf(prefix);
        } else if h !in GroupsOf(prefix) {
          HashOrderMatchesGroups(prefix);
          HashOrderOccurs(prefix);
          NoneWithHash(prefix, h);
        }
      }
    }
  }

  /** The iteration order lists exactly the hashes that occur. */
  lemma {:induction false} HashOrderOccurs(transfers: seq<TokenTransaction>)
    ensures forall h :: h in HashOrder(transfers) <==> exists t :: t in transfers && t.hash == h
  {
    if transfers != [] {
      var n := |transfers| - 1;
      var prefix := transfers[..n];
      HashOrderOccurs(prefix);
      assert transfers == prefix + [transfers[n]];
      forall h | h in HashOrder(transfers) ensures exists t :: t in transfers && t.hash == h {
        if h in HashOrder(prefix) {
          var t :| t in prefix && t.hash == h;
          assert t in transfers;
        } else {
          assert transfers[n] in transfers;
        }
      }
    }
  }

  /** Grouping puts every transfer, in list order, under its own hash and nowhere else; the
      iteration order lists each hash of the input once. */
  lemma GroupsAreHashClasses(transfers: seq<TokenTransaction>)
    ensures forall h :: h in GroupsOf(transfers) <==> h in HashOrder(transfers)
    ensures forall h :: h in HashOrder(transfers) <==> exists t :: t in transfers && t.hash == h
    ensures forall h :: h in GroupsOf(transfers) ==> GroupsOf(transfers)[h] == WithHash(transfers, h)
    ensures NoDuplicates(HashOrder(transfers))
  {
    HashOrderMatchesGroups(transfers);
    HashOrderOccurs(transfers);
    GroupsAreWithHash(transfers);
  }

  // ---------------------------------------------------------------------------
  // Trade lists

  function OptionToSeq<T>(o: Option<T>): seq<T> {
    if o.Some? then [o.value] else []
  }

  /** Σ usdValue. */
  function SumUsd(trades: seq<AlphaTradeDetail>): real {
    if trades == [] then 0.0 else trades[0].usdValue + SumUsd(trades[1..])
  }

  lemma {:induction false} SumUsdAppend(a: seq<AlphaTradeDetail>, b: seq<AlphaTradeDetail>)
    ensures SumUsd(a + b) == SumUsd(a) + SumUsd(b)
  {
    if a != [] {
      assert (a + b)[0] == a[0] && (a + b)[1..] == a[1..] + b;
      SumUsdAppend(a[1..], b);
    } else {
      assert a + b == b;
    }
  }

  lemma SumUsdPush(a: seq<AlphaTradeDetail>, d: AlphaTradeDetail)
    ensures SumUsd(a + [d]) == SumUsd(a) + d.usdValue
  {
    SumUsdAppend(a, [d]);
    assert SumUsd([d]) == d.usdValue + SumUsd([]);
  }

  predicate SortedByTimestampDesc(trades: seq<AlphaTradeDetail>) {
    forall i, j :: 0 <= i < j < |trades| ==> trades[i].timestamp >= trades[j].timestamp
  }

  /** Insert `d` before the first entry that is not more recent than it. */
  function InsertByTimestamp(d: AlphaTradeDetail, sorted: seq<AlphaTradeDetail>): (r: seq<AlphaTradeDetail>)
    ensures multiset(r) == multiset(sorted) + multiset{d}
    ensures forall x :: x in r ==> x == d || x in sorted
    ensures SumUsd(r) == d.usdValue + SumUsd(sorted)
  {
    if sorted == [] then [d]
    else if sorted[0].timestamp <= d.timestamp then
      assert ([d] + sorted)[1..] == sorted;
      [d] + sorted
    else
      var rest := InsertByTimestamp(d, sorted[1..]);
      assert sorted == [sorted[0]] + sorted[1..];
      assert ([sorted[0]] + rest)[1..] == rest;
      [sorted[0]] + rest
  }

  /** No trade is more recent than `bound`. */
  predicate NoneAfter(trades: seq<AlphaTradeDetail>, bound: int) {
    forall k :: 0 <= k < |trades| ==> trades[k].timestamp <= bound
  }

  lemma {:induction false} InsertNoneAfter(d: AlphaTradeDetail, sorted: seq<AlphaTradeDetail>, bound: int)
    requires d.timestamp <= bound && NoneAfter(sorted, bound)
    ensures NoneAfter(InsertByTimestamp(d, sorted), bound)
  {
    if sorted != [] && sorted[0].timestamp > d.timestamp {
      var rest := InsertByTimestamp(d, sorted[1..]);
      InsertNoneAfter(d, sorted[1..], bound);
      var r := [sorted[0]] + rest;
      assert r == InsertByTimestamp(d, sorted);
      forall k | 0 < k < |r| ensures r[k].timestamp <= bound {
        assert r[k] == rest[k - 1];
      }
    } else {
      var r := [d] + sorted;
      assert r == InsertByTimestamp(d, sorted);
      forall k | 0 < k < |r| ensures r[k].timestamp <= bound {
        assert r[k] == sorted[k - 1];
      }
    }
  }

  lemma {:induction false} InsertKeepsOrder(d: AlphaTradeDetail, sorted: seq<AlphaTradeDetail>)
    requires SortedByTimestampDesc(sorted)
    ensures SortedByTimestampDesc(InsertByTimestamp(d, sorted))
  {
    if sorted != [] && sorted[0].timestamp > d.timestamp {
      var top := sorted[0];
      var tail := sorted[1..];
      var rest := InsertByTimestamp(d, tail);
      assert SortedByTimestampDesc(tail) by {
        forall i, j | 0 <= i < j < |tail| ensures tail[i].timestamp >= tail[j].timestamp {
          assert tail[i] == sorted[i + 1] && tail[j] == sorted[j + 1];
        }
      }
      InsertKeepsOrder(d, tail);
      assert NoneAfter(tail, top.timestamp) by {
        forall k | 0 <= k < |tail| ensures tail[k].timestamp <= top.timestamp {
          assert tail[k] == sorted[k + 1];
        }
      }
      InsertNoneAfter(d, tail, top.timestamp);
      var r := [top] + rest;
      assert r == InsertByTimestamp(d, sorted);
      forall i, j | 0 <= i < j < |r| ensures r[i].timestamp >= r[j].timestamp {
        assert r[j] == rest[j - 1];
        if i > 0 {
          assert r[i] == rest[i - 1];
        }
      }
    } else if sorted != [] {
      var r := [d] + sorted;
      assert r == InsertByTimestamp(d, sorted);
      forall i, j | 0 <= i < j < |r| ensures r[i].timestamp >= r[j].timestamp {
        assert r[j] == sorted[j - 1];
        if i > 0 {
          assert r[i] == sorted[i - 1];
        }
      }
    }
  }


  /** `trades.sort((a, b) => b.timestamp - a.timestamp)`: JavaScript's sort is stable, and so
      is this insertion sort (an entry goes before the equal ones that followed it). */
  function SortByTimestampDesc(trades: seq<AlphaTradeDetail>): (r: seq<AlphaTradeDetail>)
    ensures multiset(r) == multiset(trades) && |r| == |trades|
    ensures SortedByTimestampDesc(r)
    ensures SumUsd(r) == SumUsd(trades)
  {
    if trades == [] then []
    else
      assert trades == [trades[0]] + trades[1..];
      InsertKeepsOrder(trades[0], SortByTimestampDesc(trades[1..]));
      InsertByTimestamp(trades[0], SortByTimestampDesc(trades[1..]))
  }

  /** The trades with the given timestamp, in list order. */
  function AtTimestamp(trades: seq<AlphaTradeDetail>, timestamp: int): seq<AlphaTradeDetail> {
    if trades == [] then []
    else (if trades[0].timestamp == timestamp then [trades[0]] else []) + AtTimestamp(trades[1..], timestamp)
  }

  /** `AtTimestamp` keeps exactly the trades with that timestamp. */
  lemma {:induction false} AtTimestampMembers(trades: seq<AlphaTradeDetail>, timestamp: int)
    ensures forall d :: d in AtTimestamp(trades, timestamp) <==> d in trades && d.timestamp == timestamp
  {
    if trades != [] {
      AtTimestampMembers(trades[1..], timestamp);
      assert forall d :: d in trades <==> d == trades[0] || d in trades[1..];
    }
  }

  /** Inserting `d` puts it ahead of every entry with its timestamp and leaves the order of
      the others with any one timestamp alone. */
  lemma {:induction false} InsertStable(d: AlphaTradeDetail, sorted: seq<AlphaTradeDetail>, timestamp: int)
    ensures AtTimestamp(InsertByTimestamp(d, sorted), timestamp)
      == (if d.timestamp == timestamp then [d] else []) + AtTimestamp(sorted, timestamp)
  {
    InsertUnfolds(d, sorted);
    if sorted != [] && sorted[0].timestamp > d.timestamp {
      InsertStable(d, sorted[1..], timestamp);
      PassOlder(d, sorted[0], InsertByTimestamp(d, sorted[1..]), sorted[1..], timestamp);
      assert sorted == [sorted[0]] + sorted[1..];
    } else {
      AtTimestampCons(d, sorted, timestamp);
    }
  }

  /** A more recent trade in front of both sides keeps the `AtTimestamp` relation between
      a list with `d` inserted and one without it. */
  lemma PassOlder(d: AlphaTradeDetail, top: AlphaTradeDetail, rest: seq<AlphaTradeDetail>, tail: seq<AlphaTradeDetail>, timestamp: int)
    requires top.timestamp > d.timestamp
    requires AtTimestamp(rest, timestamp) == (if d.timestamp == timestamp then [d] else []) + AtTimestamp(tail, timestamp)
    ensures AtTimestamp([top] + rest, timestamp)
      == (if d.timestamp == timestamp then [d] else []) + AtTimestamp([top] + tail, timestamp)
  {
    AtTimestampCons(top, rest, timestamp);
    AtTimestampCons(top, tail, timestamp);
    var later := AtTimestamp(tail, timestamp);
    if d.timestamp == timestamp {
      assert AtTimestamp([top] + rest, timestamp) == [d] + later;
    } else if top.timestamp == timestamp {
      assert AtTimestamp([top] + rest, timestamp) == [top] + later;
    } else {
      assert AtTimestamp([top] + rest, timestamp) == later;
    }
  }


  /** One step of the insertion: `d` goes in front, or behind the first trade. */
  lemma InsertUnfolds(d: AlphaTradeDetail, sorted: seq<AlphaTradeDetail>)
    ensures sorted != [] && sorted[0].timestamp > d.timestamp ==>
      InsertByTimestamp(d, sorted) == [sorted[0]] + InsertByTimestamp(d, sorted[1..])
    ensures sorted == [] || sorted[0].timestamp <= d.timestamp ==> InsertByTimestamp(d, sorted) == [d] + sorted
  {
  }

  /** `AtTimestamp` of a list with one more trade in front. */
  lemma AtTimestampCons(d: AlphaTradeDetail, trades: seq<AlphaTradeDetail>, timestamp: int)
    ensures AtTimestamp([d] + trades, timestamp) == (if d.timestamp == timestamp then [d] else []) + AtTimestamp(trades, timestamp)
  {
    assert ([d] + trades)[1..] == trades;
  }


  /** The sort is stable: the trades sharing a timestamp keep their relative input order. */
  lemma {:induction false} SortStable(trades: seq<AlphaTradeDetail>, timestamp: int)
    ensures AtTimestamp(SortByTimestampDesc(trades), timestamp) == AtTimestamp(trades, timestamp)
  {
    if trades != [] {
      SortStable(trades[1..], timestamp);
      InsertStable(trades[0], SortByTimestampDesc(trades[1..]), timestamp);
    }
  }

  // ---------------------------------------------------------------------------
  // Router filter, gas and balances

  predicate TouchesRouter(tx: Transaction) {
    Lower(tx.to) == BinanceDexRouter || Lower(tx.from) == BinanceDexRouter
  }

  /** `dexTokenTransactions`: the transfers whose first main transaction with the same hash has
      the router as recipient or sender. */
  function RouterTransfers(transactions: seq<Transaction>, transfers: seq<TokenTransaction>): (r: seq<TokenTransaction>)
    ensures forall t :: t in r <==>
      t in transfers && FindTx(transactions, t.hash).Some? && TouchesRouter(FindTx(transactions, t.hash).value)
    ensures |r| <= |transfers|
  {
    if transfers == [] then []
    else
      var t := transfers[0];
      var mainTx := FindTx(transactions, t.hash);
      (if mainTx.Some? && TouchesRouter(mainTx.value) then [t] else []) + RouterTransfers(transactions, transfers[1..])
  }

  /** gasUsed * gasPrice wei, in BNB, at the fixed reference price. */
  function GasCostUsd(tx: Transaction): (r: real)
    ensures r >= 0.0
  {
    (tx.gasUsed * tx.gasPrice) as real / WeiPerBnb as real * GasBnbPrice
  }

  /** Σ gasUsed * gasPrice / 10^18 * 600 over the transactions. */
  function GasCost(transactions: seq<Transaction>): real {
    if transactions == [] then 0.0
    else GasCost(transactions[..|transactions| - 1]) + GasCostUsd(transactions[|transactions| - 1])
  }

  lemma {:induction false} GasCostNonNegative(transactions: seq<Transaction>)
    ensures GasCost(transactions) >= 0.0
  {
    if transactions != [] {
      GasCostNonNegative(transactions[..|transactions| - 1]);
    }
  }

  /** The primary user: the first element of the set of lower-cased senders, or '' when there are
      no transactions. */
  function PrimaryUser(transactions: seq<Transaction>): string {
    if transactions == [] then "" else Lower(transactions[0].from)
  }

  /** Σ Amount over the transfers of contract `c` that credit `user` (the recipient is checked first). */
  function Inflow(transfers: seq<TokenTransaction>, c: string, user: string): real {
    if transfers == [] then 0.0
    else
      var t := transfers[|transfers| - 1];
      Inflow(transfers[..|transfers| - 1], c, user)
        + (if Lower(t.contractAddress) == c && Lower(t.to) == user then Amount(t) else 0.0)
  }

  /** Σ Amount over the transfers of contract `c` sent by `user` that do not also credit `user`. */
  function Outflow(transfers: seq<TokenTransaction>, c: string, user: string): real {
    if transfers == [] then 0.0
    else
      var t := transfers[|transfers| - 1];
      Outflow(transfers[..|transfers| - 1], c, user)
        + (if Lower(t.contractAddress) == c && Lower(t.to) != user && Lower(t.from) == user then Amount(t) else 0.0)
  }

  /** `k` is the first transfer of contract `c`, ignoring case. */
  predicate FirstOfContract(transfers: seq<TokenTransaction>, c: string, k: int) {
    && 0 <= k < |transfers| && Lower(transfers[k].contractAddress) == c
    && forall j :: 0 <= j < k ==> Lower(transfers[j].contractAddress) != c
  }

  /** The balance carries the transfer's address as spelled there, its symbol and its name. */
  predicate OpenedBy(b: TokenBalance, t: TokenTransaction) {
    b.contractAddress == t.contractAddress && b.symbol == t.tokenSymbol && b.name == t.tokenName
  }

  /** The user received or sent some of contract `c`. */
  predicate HasFlow(transfers: seq<TokenTransaction>, c: string, user: string) {
    Inflow(transfers, c, user) > 0.0 || Outflow(transfers, c, user) > 0.0
  }

  lemma {:induction false} FlowsNonNegative(transfers: seq<TokenTransaction>, c: string, user: string)
    ensures Inflow(transfers, c, user) >= 0.0 && Outflow(transfers, c, user) >= 0.0
  {
    if transfers != [] {
      FlowsNonNegative(transfers[..|transfers| - 1], c, user);
    }
  }

  /** A contract without transfers has no flow. */
  lemma {:induction false} FlowsOfAbsent(transfers: seq<TokenTransaction>, c: string, user: string)
    requires forall t :: t in transfers ==> Lower(t.contractAddress) != c
    ensures Inflow(transfers, c, user) == 0.0 && Outflow(transfers, c, user) == 0.0
  {
    if transfers != [] {
      assert transfers[|transfers| - 1] in transfers;
      FlowsOfAbsent(transfers[..|transfers| - 1], c, user);
    }
  }

  /** The USD worth of an amount at a price. */
  function Worth(amount: real, price: real): real {
    amount * price
  }

  /** Σ pnl. */
  function SumPnl(balances: seq<TokenBalance>): real {
    if balances == [] then 0.0 else balances[0].pnl + SumPnl(balances[1..])
  }

  /** The balances with some flow: `totalIn > 0 || totalOut > 0`. */
  function WithFlow(balances: seq<TokenBalance>): (r: seq<TokenBalance>)
    ensures forall b :: b in r <==> b in balances && (b.totalIn > 0.0 || b.totalOut > 0.0)
  {
    if balances == [] then []
    else (if balances[0].totalIn > 0.0 || balances[0].totalOut > 0.0 then [balances[0]] else []) + WithFlow(balances[1..])
  }

  /** A balance as the accumulation loop leaves it: non-negative flows, net = in - out,
      pnl = net * price. */
  predicate ConsistentBalance(b: TokenBalance) {
    b.totalIn >= 0.0 && b.totalOut >= 0.0 && b.netAmount == b.totalIn - b.totalOut
    && b.pnl == Worth(b.netAmount, b.currentPrice)
  }

  /** Dropping the balances without flow does not change the total: they have net 0, so pnl 0. */
  lemma {:induction false} SumPnlWithFlow(balances: seq<TokenBalance>)
    requires forall b :: b in balances ==> ConsistentBalance(b)
    ensures SumPnl(WithFlow(balances)) == SumPnl(balances)
  {
    if balances != [] {
      SumPnlWithFlow(balances[1..]);
      var b := balances[0];
      var rest := WithFlow(balances[1..]);
      assert b in balances;
      if b.totalIn > 0.0 || b.totalOut > 0.0 {
        assert ([b] + rest)[0] == b && ([b] + rest)[1..] == rest;
      } else {
        assert b.netAmount == 0.0 && b.pnl == 0.0;
        assert [] + rest == rest;
      }
    }
  }

  // ---------------------------------------------------------------------------
  // The addresses sent for real-time prices

  function LowerAll(addresses: seq<string>): (r: seq<string>)
    ensures |r| == |addresses| && forall i :: 0 <= i < |r| ==> r[i] == Lower(addresses[i])
  {
    seq(|addresses|, i requires 0 <= i < |addresses| => Lower(addresses[i]))
  }

  function DropStable(addresses: seq<string>): (r: seq<string>)
    ensures forall a :: a in r <==> a in addresses && !IsStableCoin(a) && a != WBNB
    ensures NoDuplicates(addresses) ==> NoDuplicates(r)
  {
    if addresses == [] then []
    else
      var a := addresses[0];
      var rest := DropStable(addresses[1..]);
      assert NoDuplicates(addresses) ==> a !in addresses[1..];
      (if !IsStableCoin(a) && a != WBNB then [a] else []) + rest
  }

  /** `uniqueAddresses` of `updateRealTimePrices`: the distinct lower-cased addresses in first
      occurrence order, without stablecoins and WBNB. */
  function PriceQuery(contractAddresses: seq<string>): (r: seq<string>)
    ensures NoDuplicates(r)
    ensures forall a :: a in r ==> IsLower(a) && !IsStableCoin(a)
    ensures forall a :: a in r <==> (exists c :: c in contractAddresses && Lower(c) == a) && !IsStableCoin(a)
  {
    var lowered := LowerAll(contractAddresses);
    var r := DropStable(Distinct(lowered));
    forall a | a in r ensures IsLower(a) && !IsStableCoin(a) {
      var i :| 0 <= i < |lowered| && lowered[i] == a;
    }
    forall a ensures a in r <==> (exists c :: c in contractAddresses && Lower(c) == a) && !IsStableCoin(a) {
      if a in r {
        var i :| 0 <= i < |lowered| && lowered[i] == a;
        assert contractAddresses[i] in contractAddresses;
      }
      if (exists c :: c in contractAddresses && Lower(c) == a) && !IsStableCoin(a) {
        var c :| c in contractAddresses && Lower(c) == a;
        var i :| 0 <= i < |contractAddresses| && contractAddresses[i] == c;
        assert lowered[i] == a;
        if a == WBNB { WbnbIsStableCoin(a); }
      }
    }
    r
  }

  // ---------------------------------------------------------------------------
  // Balances of the PNL analysis

  /** The contracts of the transfers, lower-cased, by first occurrence: the iteration order of
      `tokenBalances`. */
  function ContractOrder(transfers: seq<TokenTransaction>): (r: seq<string>)
    ensures forall c :: c in r <==> exists t :: t in transfers && Lower(t.contractAddress) == c
    ensures NoDuplicates(r)
  {
    if transfers == [] then []
    else
      var order := ContractOrder(transfers[..|transfers| - 1]);
      var last := transfers[|transfers| - 1];
      var c := Lower(last.contractAddress);
      assert forall t :: t in transfers <==> t in transfers[..|transfers| - 1] || t == last;
      if c in order then order else order + [c]
  }

  /** Appends a qualifying trade and adds its value to the running totals: the actual value
      once, the scored total twice. */
  method PushTrade(trades: seq<AlphaTradeDetail>, totalValue: real, actualValue: real, trade: AlphaTradeDetail)
    returns (trades': seq<AlphaTradeDetail>, totalValue': real, actualValue': real)
    requires actualValue == SumUsd(trades) && totalValue == 2.0 * actualValue
    ensures trades' == trades + [trade]
    ensures actualValue' == SumUsd(trades') && totalValue' == 2.0 * actualValue'
  {
    SumUsdPush(trades, trade);
    trades' := trades + [trade];
    totalValue' := totalValue + trade.usdValue * 2.0;
    actualValue' := actualValue + trade.usdValue;
  }

  /** `Array.from(map.values())` for a map whose keys were inserted in the order `order`. */
  function ValuesInOrder(balances: map<string, TokenBalance>, order: seq<string>): (r: seq<TokenBalance>)
    ensures forall b :: b in r ==> exists c :: c in order && c in balances && balances[c] == b
    ensures (forall c :: c in order ==> c in balances) ==>
      |r| == |order| && forall i :: 0 <= i < |r| ==> r[i] == balances[order[i]]
  {
    if order == [] then []
    else (if order[0] in balances then [balances[order[0]]] else []) + ValuesInOrder(balances, order[1..])
  }

  /** No two balances are for the same contract, ignoring case. */
  predicate DistinctContracts(balances: seq<TokenBalance>) {
    forall i, j :: 0 <= i < j < |balances| ==> Lower(balances[i].contractAddress) != Lower(balances[j].contractAddress)
  }

  /** Dropping the balances without flow keeps the contracts distinct. */
  lemma {:induction false} WithFlowKeepsDistinct(balances: seq<TokenBalance>)
    requires DistinctContracts(balances)
    ensures DistinctContracts(WithFlow(balances))
  {
    if balances != [] {
      var tail := balances[1..];
      assert DistinctContracts(tail) by {
        forall i, j | 0 <= i < j < |tail|
          ensures Lower(tail[i].contractAddress) != Lower(tail[j].contractAddress)
        {
          assert tail[i] == balances[i + 1] && tail[j] == balances[j + 1];
        }
      }
      WithFlowKeepsDistinct(tail);
      var rest := WithFlow(tail);
      var b := balances[0];
      if b.totalIn > 0.0 || b.totalOut > 0.0 {
        assert WithFlow(balances) == [b] + rest;
        forall e | e in rest ensures Lower(e.contractAddress) != Lower(b.contractAddress) {
          var k :| 0 <= k < |tail| && tail[k] == e;
          assert balances[k + 1] == e;
        }
        DistinctConsed(b, rest);
      } else {
        assert WithFlow(balances) == rest;
      }
    }
  }

  /** A balance whose contract none of `rest` has can go in front of a distinct list. */
  lemma DistinctConsed(b: TokenBalance, rest: seq<TokenBalance>)
    requires DistinctContracts(rest)
    requires forall e :: e in rest ==> Lower(e.contractAddress) != Lower(b.contractAddress)
    ensures DistinctContracts([b] + rest)
  {
    var r := [b] + rest;
    forall i, j | 0 <= i < j < |r| ensures Lower(r[i].contractAddress) != Lower(r[j].contractAddress) {
      assert r[j] == rest[j - 1];
      if i > 0 {
        assert r[i] == rest[i - 1];
      }
    }
  }


  lemma {:induction false} SumPnlAppend(a: seq<TokenBalance>, b: seq<TokenBalance>)
    ensures SumPnl(a + b) == SumPnl(a) + SumPnl(b)
  {
    if a != [] {
      assert (a + b)[0] == a[0] && (a + b)[1..] == a[1..] + b;
      SumPnlAppend(a[1..], b);
    } else {
      assert a + b == b;
    }
  }

  // ---------------------------------------------------------------------------
  // Results

  datatype AlphaTradeResult = AlphaTradeResult(
    totalValue: real,
    actualValue: real,
    score: nat,
    nextLevelAmount: real,
    trades: seq<AlphaTradeDetail>,
    levelInfo: Scoring.LevelInfo)

  datatype PnlResult = PnlResult(
    totalPNL: real,
    totalGasCost: real,
    tokenBalances: seq<TokenBalance>,
    allTrades: seq<AlphaTradeDetail>,
    trades: seq<AlphaTradeDetail>)

  /** The two valuations the source applies to a reconstructed swap: the alpha analysis values
      a qualifying swap by what was sold when that is a stablecoin and otherwise by what was
      bought; the PNL analysis values every swap by what was sold. */
  datatype Valuation = AlphaScoring | ProfitAndLoss

  /** `alphaTokenMap`: filled in list order, so the LAST token with an address wins. */
  function AlphaTokenMapOf(tokens: seq<AlphaToken>): map<string, AlphaToken> {
    if tokens == [] then map[]
    else
      var last := tokens[|tokens| - 1];
      AlphaTokenMapOf(tokens[..|tokens| - 1])[Lower(last.contractAddress) := last]
  }

  lemma {:induction false} AlphaTokenMapLookup(tokens: seq<AlphaToken>, c: string)
    ensures c in AlphaTokenMapOf(tokens) <==> exists t :: t in tokens && Lower(t.contractAddress) == c
    ensures c in AlphaTokenMapOf(tokens) ==>
      AlphaTokenMapOf(tokens)[c] in tokens && Lower(AlphaTokenMapOf(tokens)[c].contractAddress) == c
  {
    if tokens != [] {
      var n := |tokens| - 1;
      var prefix := tokens[..n];
      AlphaTokenMapLookup(prefix, c);
      assert forall t :: t in tokens <==> t in prefix || t == tokens[n];
    }
  }

  /** Of several tokens with one address, the map keeps the last. */
  lemma {:induction false} AlphaTokenMapLastWins(tokens: seq<AlphaToken>, c: string)
    ensures c in AlphaTokenMapOf(tokens) ==>
      exists i :: (0 <= i < |tokens| && tokens[i] == AlphaTokenMapOf(tokens)[c]
                   && forall j :: i < j < |tokens| ==> Lower(tokens[j].contractAddress) != c)
  {
    if tokens != [] {
      var n := |tokens| - 1;
      var prefix := tokens[..n];
      var m, before := AlphaTokenMapOf(tokens), AlphaTokenMapOf(prefix);
      assert m == before[Lower(tokens[n].contractAddress) := tokens[n]];
      if Lower(tokens[n].contractAddress) == c {
        assert tokens[n] == m[c];
      } else if c in m {
        AlphaTokenMapLastWins(prefix, c);
        var i :| 0 <= i < n && prefix[i] == before[c]
          && forall j :: i < j < n ==> Lower(prefix[j].contractAddress) != c;
        assert tokens[i] == m[c];
        assert forall j :: i < j < n ==> tokens[j] == prefix[j];
      }
    }
  }

  class TransactionAnalyzer {
    /** Lower-cased contract address to alpha token entry. */
    const alphaTokenMap: map<string, AlphaToken>
    /** Lower-cased contract address to live USD price, as last fetched. */
    var realTimePrices: map<string, real>
    var bnbPrice: real

    /** Builds the address map from the bundled alpha token list. */
    constructor (alphaTokens: seq<AlphaToken>)
      ensures alphaTokenMap == AlphaTokenMapOf(alphaTokens)
      ensures realTimePrices == map[] && bnbPrice == InitialBnbPrice
    {
      var tokenMap: map<string, AlphaToken> := map[];
      for i := 0 to |alphaTokens|
        invariant tokenMap == AlphaTokenMapOf(alphaTokens[..i])
      {
        assert alphaTokens[..i + 1][..i] == alphaTokens[..i];
        tokenMap := tokenMap[Lower(alphaTokens[i].contractAddress) := alphaTokens[i]];
      }
      assert alphaTokens[..|alphaTokens|] == alphaTokens;
      alphaTokenMap := tokenMap;
      realTimePrices := map[];
      bnbPrice := InitialBnbPrice;
    }

    /** `isAlphaToken`: the map is keyed by lower-cased address and the lookup lower-cases its
        argument, so any spelling of a listed address is an alpha token. */
    function IsAlphaToken(contractAddress: string): (r: bool)
      reads this
      ensures r <==> Lower(Lower(contractAddress)) in alphaTokenMap
    {
      LowerIdempotent(contractAddress);
      Lower(contractAddress) in alphaTokenMap
    }

    /** `isValidAlphaTrade`: stablecoin to alpha, WBNB to alpha, or alpha to alpha. WBNB is a
        stablecoin, so the trade qualifies exactly when it buys an alpha token with a stablecoin
        or another alpha token. */
    function QualifiesForScore(sellToken: string, buyToken: string): (r: bool)
      reads this
      ensures r <==> IsAlphaToken(buyToken) && (IsStableCoin(sellToken) || IsAlphaToken(sellToken))
    {
      assert IsWbnb(sellToken) ==> IsStableCoin(sellToken) by {
        if IsWbnb(sellToken) { WbnbIsStableCoin(sellToken); }
      }
      || (IsStableCoin(sellToken) && IsAlphaToken(buyToken))
      || (IsWbnb(sellToken) && IsAlphaToken(buyToken))
      || (IsAlphaToken(sellToken) && IsAlphaToken(buyToken))
    }

    /** The USD price of a token: the live price when one was fetched, else 1 for a stablecoin,
        else the configured alpha price, else 0. The source's WBNB test (price `bnbPrice`) comes
        after the stablecoin test, which WBNB already passes, so it is not part of the model
        (`WbnbPricedAsStableCoin`). */
    function GetTokenPrice(contractAddress: string): (price: real)
      reads this
      ensures Lower(contractAddress) in realTimePrices ==> price == realTimePrices[Lower(contractAddress)]
      ensures Lower(contractAddress) !in realTimePrices ==>
        price == if IsStableCoin(contractAddress) then 1.0
                 else if IsAlphaToken(contractAddress) then alphaTokenMap[Lower(contractAddress)].price
                 else 0.0
    {
      var normalizedAddress := Lower(contractAddress);
      if normalizedAddress in realTimePrices then realTimePrices[normalizedAddress]
      else if IsStableCoin(contractAddress) then 1.0
      else if IsAlphaToken(contractAddress) then alphaTokenMap[normalizedAddress].price
      else 0.0
    }

    /** Every lookup lower-cases its argument first, so letter case never changes a price. */
    lemma TokenPriceIgnoresCase(contractAddress: string)
      ensures GetTokenPrice(contractAddress) == GetTokenPrice(Lower(contractAddress))
      ensures IsAlphaToken(contractAddress) == IsAlphaToken(Lower(contractAddress))
      ensures IsStableCoin(contractAddress) == IsStableCoin(Lower(contractAddress))
    {
      LowerIdempotent(contractAddress);
    }

    /** With no live price, WBNB is priced as a stablecoin at 1, not at the BNB price. */
    lemma WbnbPricedAsStableCoin()
      ensures WBNB !in realTimePrices ==> GetTokenPrice(WBNB) == 1.0
    {
      WbnbIsStableToken();
      WbnbIsStableCoin(WBNB);
    }

    /** Prices are never negative when the live and configured prices are not. */
    lemma TokenPriceNonNegative(contractAddress: string)
      requires PricesNonNegative()
      ensures GetTokenPrice(contractAddress) >= 0.0
    {
    }

    /** The USD value of a swap under the given valuation. The source tests for WBNB (valued at
        `bnbPrice`) after the stablecoin test, which already holds for WBNB; that branch can
        never be taken and is not part of the model (`WbnbSoldAtAmount`). */
    function UsdValue(valuation: Valuation, legs: Legs): (usdValue: real)
      reads this
      ensures IsStableCoin(legs.sell.contractAddress) ==> usdValue == Amount(legs.sell)
      ensures PricesNonNegative() ==> usdValue >= 0.0
    {
      if IsStableCoin(legs.sell.contractAddress) then Amount(legs.sell)
      else if valuation == AlphaScoring then Worth(Amount(legs.buy), GetTokenPrice(legs.buy.contractAddress))
      else Worth(Amount(legs.sell), GetTokenPrice(legs.sell.contractAddress))
    }

    /** Every live and configured price is non-negative. */
    predicate PricesNonNegative()
      reads this
    {
      && (forall c :: c in realTimePrices ==> realTimePrices[c] >= 0.0)
      && (forall c :: c in alphaTokenMap ==> alphaTokenMap[c].price >= 0.0)
    }

    /** The PNL valuation looks only at the sold leg: what was bought never changes it. */
    lemma PnlIgnoresBuyLeg(sell: TokenTransaction, buy1: TokenTransaction, buy2: TokenTransaction)
      ensures UsdValue(ProfitAndLoss, Legs(sell, buy1)) == UsdValue(ProfitAndLoss, Legs(sell, buy2))
      ensures !IsStableCoin(sell.contractAddress) ==>
        UsdValue(ProfitAndLoss, Legs(sell, buy1)) == Worth(Amount(sell), GetTokenPrice(sell.contractAddress))
    {
    }

    /** Unless a stablecoin was sold, the alpha valuation prices the bought leg: which
        non-stable token was sold, and at what price, never changes it. */
    lemma AlphaIgnoresSoldToken(sell1: TokenTransaction, sell2: TokenTransaction, buy: TokenTransaction)
      requires !IsStableCoin(sell1.contractAddress) && !IsStableCoin(sell2.contractAddress)
      ensures UsdValue(AlphaScoring, Legs(sell1, buy)) == UsdValue(AlphaScoring, Legs(sell2, buy))
      ensures UsdValue(AlphaScoring, Legs(sell1, buy)) == Worth(Amount(buy), GetTokenPrice(buy.contractAddress))
    {
    }

    /** A swap selling WBNB is valued like one selling a stablecoin: 1 USD per token sold, not
        the BNB price. */
    lemma WbnbSoldAtAmount(valuation: Valuation, legs: Legs)
      requires IsWbnb(legs.sell.contractAddress)
      ensures UsdValue(valuation, legs) == Amount(legs.sell)
    {
      WbnbIsStableCoin(legs.sell.contractAddress);
    }

    /** The trade one hash contributes, if any: the legs must parse, the alpha valuation also
        needs a qualifying pair, and the value must be positive. */
    function TradeOf(valuation: Valuation, hash: string, mainTx: Option<Transaction>, group: seq<TokenTransaction>): (r: Option<AlphaTradeDetail>)
      reads this
      ensures r.Some? ==>
        && ParseLegs(mainTx, group).Some?
        && r.value == TradeDetail(hash, ParseLegs(mainTx, group).value, r.value.usdValue)
        && r.value.hash == hash && r.value.usdValue > 0.0
        && (valuation == AlphaScoring ==> QualifiesForScore(r.value.fromToken, r.value.toToken) && IsAlphaToken(r.value.toToken))
      ensures r.Some? ==> r.value.usdValue == UsdValue(valuation, ParseLegs(mainTx, group).value)
      ensures r.Some? <==>
        && ParseLegs(mainTx, group).Some?
        && (valuation == AlphaScoring ==>
              QualifiesForScore(ParseLegs(mainTx, group).value.sell.contractAddress, ParseLegs(mainTx, group).value.buy.contractAddress))
        && UsdValue(valuation, ParseLegs(mainTx, group).value) > 0.0
    {
      match ParseLegs(mainTx, group)
      case None => None
      case Some(legs) =>
        if valuation == AlphaScoring && !QualifiesForScore(legs.sell.contractAddress, legs.buy.contractAddress) then None
        else
          var usdValue := UsdValue(valuation, legs);
          if usdValue > 0.0 then Some(TradeDetail(hash, legs, usdValue)) else None
    }

    /** The trades of the hashes in order, as the `forEach` over the grouped map pushes them. */
    function TradesOf(valuation: Valuation, txMap: map<string, Transaction>, groups: map<string, seq<TokenTransaction>>, hashes: seq<string>): seq<AlphaTradeDetail>
      reads this
    {
      if hashes == [] then []
      else
        var h := hashes[|hashes| - 1];
        TradesOf(valuation, txMap, groups, hashes[..|hashes| - 1])
          + OptionToSeq(TradeOf(valuation, h, Lookup(txMap, h), GroupAt(groups, h)))
    }

    /** One more hash of the walk adds the trade of that hash, if any. */
    lemma TradesOfStep(valuation: Valuation, txMap: map<string, Transaction>, groups: map<string, seq<TokenTransaction>>,
                       hashes: seq<string>, k: nat)
      requires k < |hashes| && hashes[k] in groups
      ensures TradesOf(valuation, txMap, groups, hashes[..k + 1])
        == TradesOf(valuation, txMap, groups, hashes[..k])
           + OptionToSeq(TradeOf(valuation, hashes[k], Lookup(txMap, hashes[k]), groups[hashes[k]]))
    {
      assert hashes[..k + 1][..k] == hashes[..k];
    }

    /** The trades of one analysis run over the given transfers. */
    function Trades(valuation: Valuation, transactions: seq<Transaction>, transfers: seq<TokenTransaction>): seq<AlphaTradeDetail>
      reads this
    {
      TradesOf(valuation, TxMapOf(transactions), GroupsOf(transfers), HashOrder(transfers))
    }

    /** Every trade has a positive value and comes from one of the hashes, at most one per hash;
        under the alpha valuation every trade buys an alpha token from a qualifying pair. */
    lemma TradesSound(valuation: Valuation, txMap: map<string, Transaction>, groups: map<string, seq<TokenTransaction>>, hashes: seq<string>)
      ensures |TradesOf(valuation, txMap, groups, hashes)| <= |hashes|
      ensures forall d :: d in TradesOf(valuation, txMap, groups, hashes) ==>
        d.usdValue > 0.0 && d.hash in hashes
        && (valuation == AlphaScoring ==> QualifiesForScore(d.fromToken, d.toToken) && IsAlphaToken(d.toToken))
      ensures NoDuplicates(hashes) ==>
        forall i, j :: 0 <= i < j < |TradesOf(valuation, txMap, groups, hashes)| ==>
          TradesOf(valuation, txMap, groups, hashes)[i].hash != TradesOf(valuation, txMap, groups, hashes)[j].hash
    {
      TradesEach(valuation, txMap, groups, hashes);
      TradesDistinct(valuation, txMap, groups, hashes);
    }

    /** At most one trade per hash, each positive, from the listed hashes, and qualifying. */
    lemma {:induction false} TradesEach(valuation: Valuation, txMap: map<string, Transaction>, groups: map<string, seq<TokenTransaction>>, hashes: seq<string>)
      ensures |TradesOf(valuation, txMap, groups, hashes)| <= |hashes|
      ensures forall d :: d in TradesOf(valuation, txMap, groups, hashes) ==>
        d.usdValue > 0.0 && d.hash in hashes
        && (valuation == AlphaScoring ==> QualifiesForScore(d.fromToken, d.toToken) && IsAlphaToken(d.toToken))
    {
      if hashes != [] {
        var prefix := hashes[..|hashes| - 1];
        TradesEach(valuation, txMap, groups, prefix);
        assert forall x :: x in prefix ==> x in hashes;
      }
    }

    /** Distinct hashes give trades with distinct hashes. */
    lemma {:induction false} TradesDistinct(valuation: Valuation, txMap: map<string, Transaction>, groups: map<string, seq<TokenTransaction>>, hashes: seq<string>)
      ensures NoDuplicates(hashes) ==>
        forall i, j :: 0 <= i < j < |TradesOf(valuation, txMap, groups, hashes)| ==>
          TradesOf(valuation, txMap, groups, hashes)[i].hash != TradesOf(valuation, txMap, groups, hashes)[j].hash
    {
      if hashes != [] && NoDuplicates(hashes) {
        var prefix := hashes[..|hashes| - 1];
        var h := hashes[|hashes| - 1];
        TradesDistinct(valuation, txMap, groups, prefix);
        TradesEach(valuation, txMap, groups, prefix);
        assert h !in prefix;
        var before := TradesOf(valuation, txMap, groups, prefix);
        var extra := OptionToSeq(TradeOf(valuation, h, Lookup(txMap, h), GroupAt(groups, h)));
        var all := before + extra;
        forall i, j | 0 <= i < j < |all| ensures all[i].hash != all[j].hash {
          if j >= |before| {
            assert all[j] == extra[0] && extra[0].hash == h;
            assert all[i] in before;
          }
        }
      }
    }

    /** A transfer group with a single transfer never yields a trade. */
    lemma LoneTransferNoTrade(valuation: Valuation, hash: string, mainTx: Option<Transaction>, t: TokenTransaction)
      ensures TradeOf(valuation, hash, mainTx, [t]).None?
    {
    }

    /** One step of the balance loop; the recipient test comes first, so a transfer to oneself
        counts as inflow only. */
    function ApplyTransfer(balances: map<string, TokenBalance>, t: TokenTransaction, user: string): map<string, TokenBalance>
      reads this
    {
      var c := Lower(t.contractAddress);
      var b0 := if c in balances then balances[c]
                else TokenBalance(t.contractAddress, t.tokenSymbol, t.tokenName, 0.0, 0.0, 0.0, 0.0, 0.0);
      var b1 := if Lower(t.to) == user then b0.(totalIn := b0.totalIn + Amount(t))
                else if Lower(t.from) == user then b0.(totalOut := b0.totalOut + Amount(t))
                else b0;
      var b2 := b1.(netAmount := b1.totalIn - b1.totalOut);
      var b3 := b2.(currentPrice := GetTokenPrice(c));
      balances[c := b3.(pnl := Worth(b3.netAmount, b3.currentPrice))]
    }

    /** `tokenBalances` after the balance loop over `transfers`. */
    function BalancesOf(transfers: seq<TokenTransaction>, user: string): map<string, TokenBalance>
      reads this
    {
      if transfers == [] then map[]
      else ApplyTransfer(BalancesOf(transfers[..|transfers| - 1], user), transfers[|transfers| - 1], user)
    }

    lemma {:induction false} BalanceKeys(transfers: seq<TokenTransaction>, user: string)
      ensures forall c :: c in BalancesOf(transfers, user) <==> c in ContractOrder(transfers)
    {
      if transfers != [] {
        BalanceKeys(transfers[..|transfers| - 1], user);
      }
    }

    /** Each balance is the sum of its contract's flows: inflow and outflow of `user`, their
        difference, the current price and their product. */
    lemma {:induction false} BalancesMatchFlows(transfers: seq<TokenTransaction>, user: string)
      ensures forall c :: c in BalancesOf(transfers, user) <==> c in ContractOrder(transfers)
      ensures forall c :: c in BalancesOf(transfers, user) ==>
        var b := BalancesOf(transfers, user)[c];
        && Lower(b.contractAddress) == c
        && b.totalIn == Inflow(transfers, c, user)
        && b.totalOut == Outflow(transfers, c, user)
        && b.currentPrice == GetTokenPrice(c)
        && ConsistentBalance(b)
    {
      if transfers != [] {
        var prefix := transfers[..|transfers| - 1];
        var t := transfers[|transfers| - 1];
        BalancesMatchFlows(prefix, user);
        var key := Lower(t.contractAddress);
        var old_ := BalancesOf(prefix, user);
        var new_ := BalancesOf(transfers, user);
        assert forall x :: x in transfers <==> x in prefix || x == t;
        forall c ensures c in new_ <==> c in ContractOrder(transfers) {
        }
        forall c | c in new_
          ensures Lower(new_[c].contractAddress) == c
          ensures new_[c].totalIn == Inflow(transfers, c, user)
          ensures new_[c].totalOut == Outflow(transfers, c, user)
          ensures new_[c].currentPrice == GetTokenPrice(c)
          ensures ConsistentBalance(new_[c])
        {
          FlowsNonNegative(transfers, c, user);
          if c == key && c !in old_ {
            FlowsOfAbsent(prefix, c, user);
          }
        }
      }
    }

    /** Each balance was opened by the first transfer of its contract: it keeps that transfer's
        spelling of the address, its symbol and its name, whatever later transfers say. */
    lemma {:induction false} BalancesFromFirstTransfer(transfers: seq<TokenTransaction>, user: string)
      ensures forall c :: c in BalancesOf(transfers, user) ==>
        exists k :: FirstOfContract(transfers, c, k) && OpenedBy(BalancesOf(transfers, user)[c], transfers[k])
    {
      if transfers != [] {
        var n := |transfers| - 1;
        var prefix := transfers[..n];
        var t := transfers[n];
        BalancesFromFirstTransfer(prefix, user);
        BalanceKeys(prefix, user);
        var old_ := BalancesOf(prefix, user);
        var new_ := BalancesOf(transfers, user);
        assert new_ == ApplyTransfer(old_, t, user);
        forall c | c in new_ ensures exists k :: FirstOfContract(transfers, c, k) && OpenedBy(new_[c], transfers[k]) {
          ApplyTransferKeepsOpening(old_, t, user, c);
          if c in old_ {
            var k :| FirstOfContract(prefix, c, k) && OpenedBy(old_[c], prefix[k]);
            assert forall j :: 0 <= j <= k ==> prefix[j] == transfers[j];
            assert FirstOfContract(transfers, c, k);
          } else {
            assert forall j :: 0 <= j < n ==> prefix[j] in prefix && prefix[j] == transfers[j];
            assert FirstOfContract(transfers, c, n);
          }
        }
      }
    }

    /** A transfer opens the balance of its contract when there is none, and never changes the
        address, symbol or name of a balance already open. */
    lemma ApplyTransferKeepsOpening(balances: map<string, TokenBalance>, t: TokenTransaction, user: string, c: string)
      ensures c in ApplyTransfer(balances, t, user) <==> c in balances || c == Lower(t.contractAddress)
      ensures c in balances ==>
        var b, b' := balances[c], ApplyTransfer(balances, t, user)[c];
        b'.contractAddress == b.contractAddress && b'.symbol == b.symbol && b'.name == b.name
      ensures c !in balances && c == Lower(t.contractAddress) ==> OpenedBy(ApplyTransfer(balances, t, user)[c], t)
    {
    }


    /** `updateRealTimePrices`: the BNB price and the live token prices are replaced by what the
        price service returns. `mainBnbPrice` is the BNB price `getMainCoinPrices` reports and
        `fetchPrices` is `getTokenPrices`'s answer for a list of addresses; `None` stands for a
        call that throws. The service is asked for token prices only when some non-stable
        address is left. A throw ends the update, and the `catch` keeps what was already set. */
    method UpdateRealTimePrices(contractAddresses: seq<string>, mainBnbPrice: Option<real>,
                                fetchPrices: seq<string> -> Option<map<string, real>>)
      modifies this
      ensures mainBnbPrice.None? ==> bnbPrice == old(bnbPrice) && realTimePrices == old(realTimePrices)
      ensures mainBnbPrice.Some? ==> bnbPrice == mainBnbPrice.value
      ensures mainBnbPrice.Some? && |PriceQuery(contractAddresses)| > 0 && fetchPrices(PriceQuery(contractAddresses)).Some? ==>
        realTimePrices == fetchPrices(PriceQuery(contractAddresses)).value
      ensures |PriceQuery(contractAddresses)| == 0 || fetchPrices(PriceQuery(contractAddresses)).None? ==>
        realTimePrices == old(realTimePrices)
    {
      if mainBnbPrice.None? {
        return;
      }
      bnbPrice := mainBnbPrice.value;
      var uniqueAddresses := PriceQuery(contractAddresses);
      if |uniqueAddresses| > 0 {
        var prices := fetchPrices(uniqueAddresses);
        if prices.Some? {
          realTimePrices := prices.value;
        }
      }
    }

    /** The `forEach` of `analyzeAlphaTrades` over the grouped transfers: the qualifying trades
        in hash order, their summed value, and that sum doubled. */
    method CollectAlphaTrades(transactions: seq<Transaction>, tokenTransactions: seq<TokenTransaction>)
      returns (alphaTrades: seq<AlphaTradeDetail>, totalValue: real, actualValue: real)
      ensures alphaTrades == Trades(AlphaScoring, transactions, tokenTransactions)
      ensures actualValue == SumUsd(alphaTrades) && totalValue == 2.0 * actualValue
    {
      alphaTrades := [];
      totalValue := 0.0;
      actualValue := 0.0;

      var transactionMap := IndexByHash(transactions);
      var tokenTxByHash, hashOrder := GroupByHash(tokenTransactions);

      for k := 0 to |hashOrder|
        invariant alphaTrades == TradesOf(AlphaScoring, transactionMap, tokenTxByHash, hashOrder[..k])
        invariant actualValue == SumUsd(alphaTrades) && totalValue == 2.0 * actualValue
      {
        var hash := hashOrder[k];
        TradesOfStep(AlphaScoring, transactionMap, tokenTxByHash, hashOrder, k);
        var mainTx := Lookup(transactionMap, hash);
        var tradeDetail := TradeOf(AlphaScoring, hash, mainTx, tokenTxByHash[hash]);
        if tradeDetail.Some? {
          alphaTrades, totalValue, actualValue := PushTrade(alphaTrades, totalValue, actualValue, tradeDetail.value);
        }
      }
      assert hashOrder[..|hashOrder|] == hashOrder;
    }

    /** `analyzeAlphaTrades`: reconstructs the swaps, keeps the qualifying ones, and scores
        twice their summed value. */
    method AnalyzeAlphaTrades(transactions: seq<Transaction>, tokenTransactions: seq<TokenTransaction>) returns (result: AlphaTradeResult)
      ensures result.trades == SortByTimestampDesc(Trades(AlphaScoring, transactions, tokenTransactions))
      ensures SortedByTimestampDesc(result.trades)
      ensures forall d :: d in result.trades ==>
        d.usdValue > 0.0 && QualifiesForScore(d.fromToken, d.toToken) && IsAlphaToken(d.toToken)
      ensures forall i, j :: 0 <= i < j < |result.trades| ==> result.trades[i].hash != result.trades[j].hash
      ensures result.actualValue == SumUsd(result.trades) && result.totalValue == 2.0 * result.actualValue
      ensures result.score == Scoring.LevelScore(result.totalValue)
      ensures result.nextLevelAmount == (Scoring.NextThreshold(result.totalValue) as real - result.totalValue) / 2.0
      ensures result.levelInfo == Scoring.LevelInfo(
        Scoring.LevelFloor(result.totalValue), Scoring.NextThreshold(result.totalValue),
        Scoring.LevelProgress(result.totalValue))
    {
      var alphaTrades, totalValue, actualValue := CollectAlphaTrades(transactions, tokenTransactions);
      TradesSound(AlphaScoring, TxMapOf(transactions), GroupsOf(tokenTransactions), HashOrder(tokenTransactions));
      HashOrderMatchesGroups(tokenTransactions);

      var score := Scoring.CalculateScore(totalValue);
      var nextLevelAmount := Scoring.GetNextLevelAmount(totalValue);
      var levelInfo := Scoring.GetCurrentLevelInfo(totalValue);
      SortKeepsDistinctHashes(alphaTrades);
      SortKeepsTrades(alphaTrades);
      result := AlphaTradeResult(totalValue, actualValue, score, nextLevelAmount, SortByTimestampDesc(alphaTrades), levelInfo);
    }

    /** The `forEach` of `analyzePNL` over the grouped router transfers: every swap of positive
        value, in hash order. */
    method CollectPnlTrades(transactions: seq<Transaction>, transfers: seq<TokenTransaction>)
      returns (allTrades: seq<AlphaTradeDetail>)
      ensures allTrades == Trades(ProfitAndLoss, transactions, transfers)
    {
      allTrades := [];
      var transactionMap := IndexByHash(transactions);
      var tokenTxByHash, hashOrder := GroupByHash(transfers);

      for k := 0 to |hashOrder|
        invariant allTrades == TradesOf(ProfitAndLoss, transactionMap, tokenTxByHash, hashOrder[..k])
      {
        var hash := hashOrder[k];
        TradesOfStep(ProfitAndLoss, transactionMap, tokenTxByHash, hashOrder, k);
        var mainTx := Lookup(transactionMap, hash);
        var tradeDetail := TradeOf(ProfitAndLoss, hash, mainTx, tokenTxByHash[hash]);
        if tradeDetail.Some? {
          allTrades := allTrades + [tradeDetail.value];
        }
      }
      assert hashOrder[..|hashOrder|] == hashOrder;
    }

    /** The balance loop of `analyzePNL`: one balance per lower-cased contract, in the order of
        first appearance, updated by every transfer of that contract. */
    method AccumulateBalances(transfers: seq<TokenTransaction>, user: string)
      returns (tokenBalances: map<string, TokenBalance>, balanceOrder: seq<string>)
      ensures tokenBalances == BalancesOf(transfers, user) && balanceOrder == ContractOrder(transfers)
    {
      tokenBalances := map[];
      balanceOrder := [];
      for i := 0 to |transfers|
        invariant tokenBalances == BalancesOf(transfers[..i], user)
        invariant balanceOrder == ContractOrder(transfers[..i])
      {
        var tokenTx := transfers[i];
        assert transfers[..i + 1][..i] == transfers[..i] && transfers[..i + 1][i] == tokenTx;
        assert BalancesOf(transfers[..i + 1], user) == ApplyTransfer(tokenBalances, tokenTx, user);
        BalanceKeys(transfers[..i], user);
        var contractAddress := Lower(tokenTx.contractAddress);
        if contractAddress !in tokenBalances {
          balanceOrder := balanceOrder + [contractAddress];
        }
        tokenBalances := ApplyTransfer(tokenBalances, tokenTx, user);
      }
      assert transfers[..|transfers|] == transfers;
    }

    /** Every balance of the list `analyzePNL` builds is consistent and carries its contract's
        flows. */
    lemma BalanceListMatchesFlows(transfers: seq<TokenTransaction>, user: string)
      ensures forall b :: b in ValuesInOrder(BalancesOf(transfers, user), ContractOrder(transfers)) ==>
        && b.totalIn == Inflow(transfers, Lower(b.contractAddress), user)
        && b.totalOut == Outflow(transfers, Lower(b.contractAddress), user)
        && b.currentPrice == GetTokenPrice(b.contractAddress)
        && ConsistentBalance(b)
    {
      var balances := BalancesOf(transfers, user);
      BalancesMatchFlows(transfers, user);
      forall b | b in ValuesInOrder(balances, ContractOrder(transfers))
        ensures b.totalIn == Inflow(transfers, Lower(b.contractAddress), user)
        ensures b.totalOut == Outflow(transfers, Lower(b.contractAddress), user)
        ensures b.currentPrice == GetTokenPrice(b.contractAddress)
        ensures ConsistentBalance(b)
      {
        var c :| c in ContractOrder(transfers) && c in balances && balances[c] == b;
        TokenPriceIgnoresCase(b.contractAddress);
      }
    }

    /** The balance list `analyzePNL` reports holds exactly one entry for each contract the
        user moved: none twice, and none with flow left out. */
    lemma BalanceListOncePerContract(transfers: seq<TokenTransaction>, user: string)
      ensures var list := WithFlow(ValuesInOrder(BalancesOf(transfers, user), ContractOrder(transfers)));
        && DistinctContracts(list)
        && forall c :: HasFlow(transfers, c, user) ==> exists b :: b in list && Lower(b.contractAddress) == c
    {
      var order := ContractOrder(transfers);
      var values := ValuesInOrder(BalancesOf(transfers, user), order);
      BalanceValuesFollowOrder(transfers, user);
      assert DistinctContracts(values) by {
        forall i, j | 0 <= i < j < |values|
          ensures Lower(values[i].contractAddress) != Lower(values[j].contractAddress)
        {
          assert order[i] != order[j];
        }
      }
      WithFlowKeepsDistinct(values);
      forall c | HasFlow(transfers, c, user)
        ensures exists b :: b in WithFlow(values) && Lower(b.contractAddress) == c
      {
        if c !in order {
          FlowsOfAbsent(transfers, c, user);
        }
        var k :| 0 <= k < |order| && order[k] == c;
        assert values[k] in values;
      }
    }

    /** The balance list has one entry per contract of the order, at its position, and the
        entry's flows are the contract's flows. */
    lemma BalanceValuesFollowOrder(transfers: seq<TokenTransaction>, user: string)
      ensures var order := ContractOrder(transfers);
        var values := ValuesInOrder(BalancesOf(transfers, user), order);
        && |values| == |order|
        && forall i :: 0 <= i < |values| ==>
             && Lower(values[i].contractAddress) == order[i]
             && values[i].totalIn == Inflow(transfers, order[i], user)
             && values[i].totalOut == Outflow(transfers, order[i], user)
    {
      BalancesMatchFlows(transfers, user);
    }


    /** `analyzePNL`: gas cost of every transaction, the trades and per-token balances of the
        transfers routed through the DEX router, and the alpha trades passed in. */
    method AnalyzePNL(transactions: seq<Transaction>, tokenTransactions: seq<TokenTransaction>, alphaTradesData: Option<seq<AlphaTradeDetail>>)
      returns (result: PnlResult)
      ensures result.totalGasCost == GasCost(transactions) && result.totalGasCost >= 0.0
      ensures result.trades == (if alphaTradesData.Some? then alphaTradesData.value else [])
      ensures
        var dex := RouterTransfers(transactions, tokenTransactions);
        var balances := ValuesInOrder(BalancesOf(dex, PrimaryUser(transactions)), ContractOrder(dex));
        && result.allTrades == SortByTimestampDesc(Trades(ProfitAndLoss, transactions, dex))
        && result.tokenBalances == WithFlow(balances)
        && result.totalPNL == SumPnl(balances)
        && (forall b :: b in result.tokenBalances ==>
              && (b.totalIn > 0.0 || b.totalOut > 0.0)
              && b.totalIn == Inflow(dex, Lower(b.contractAddress), PrimaryUser(transactions))
              && b.totalOut == Outflow(dex, Lower(b.contractAddress), PrimaryUser(transactions))
              && b.currentPrice == GetTokenPrice(b.contractAddress)
              && ConsistentBalance(b))
      ensures result.totalPNL == SumPnl(result.tokenBalances)
      ensures DistinctContracts(result.tokenBalances)
      ensures forall c :: HasFlow(RouterTransfers(transactions, tokenTransactions), c, PrimaryUser(transactions)) ==>
        exists b :: b in result.tokenBalances && Lower(b.contractAddress) == c
      ensures SortedByTimestampDesc(result.allTrades)
      ensures forall d :: d in result.allTrades ==> d.usdValue > 0.0
    {
      var totalGasCost := 0.0;

      for i := 0 to |transactions|
        invariant totalGasCost == GasCost(transactions[..i])
      {
        assert transactions[..i + 1][..i] == transactions[..i];
        var gasCostWei := transactions[i].gasUsed * transactions[i].gasPrice;
        var gasCostBnb := gasCostWei as real / WeiPerBnb as real;
        totalGasCost := totalGasCost + gasCostBnb * GasBnbPrice;
      }
      assert transactions[..|transactions|] == transactions;
      GasCostNonNegative(transactions);

      var userAddresses: seq<string> := [];
      for i := 0 to |transactions|
        invariant |userAddresses| > 0 <==> i > 0
        invariant i > 0 ==> userAddresses[0] == Lower(transactions[0].from)
      {
        var sender := Lower(transactions[i].from);
        if sender !in userAddresses {
          userAddresses := userAddresses + [sender];
        }
      }
      var primaryUserAddress := if |userAddresses| > 0 then userAddresses[0] else "";

      var dexTokenTransactions := RouterTransfers(transactions, tokenTransactions);
      var allTrades := CollectPnlTrades(transactions, dexTokenTransactions);
      TradesSound(ProfitAndLoss, TxMapOf(transactions), GroupsOf(dexTokenTransactions), HashOrder(dexTokenTransactions));

      var tokenBalances, balanceOrder := AccumulateBalances(dexTokenTransactions, primaryUserAddress);
      var tokenBalanceArray := ValuesInOrder(tokenBalances, balanceOrder);
      var totalPNL := SumPnl(tokenBalanceArray);
      BalanceListMatchesFlows(dexTokenTransactions, primaryUserAddress);
      BalanceListOncePerContract(dexTokenTransactions, primaryUserAddress);
      SumPnlWithFlow(tokenBalanceArray);
      SortKeepsTrades(allTrades);
      result := PnlResult(totalPNL, totalGasCost, WithFlow(tokenBalanceArray), SortByTimestampDesc(allTrades),
                          if alphaTradesData.Some? then alphaTradesData.value else []);
    }
  }

  /** `transactionMap`, filled by the loop over the transactions. */
  method IndexByHash(transactions: seq<Transaction>) returns (transactionMap: map<string, Transaction>)
    ensures transactionMap == TxMapOf(transactions)
  {
    transactionMap := map[];
    for i := 0 to |transactions|
      invariant transactionMap == TxMapOf(transactions[..i])
    {
      assert transactions[..i + 1][..i] == transactions[..i];
      transactionMap := transactionMap[transactions[i].hash := transactions[i]];
    }
    assert transactions[..|transactions|] == transactions;
  }

  /** The grouping loop shared by both analyses: `tokenTxByHash` and the order in which its
      `forEach` visits the hashes. */
  method GroupByHash(transfers: seq<TokenTransaction>) returns (groups: map<string, seq<TokenTransaction>>, order: seq<string>)
    ensures groups == GroupsOf(transfers) && order == HashOrder(transfers)
    ensures forall h :: h in groups <==> h in order
    ensures NoDuplicates(order)
  {
    groups := map[];
    order := [];
    for i := 0 to |transfers|
      invariant groups == GroupsOf(transfers[..i]) && order == HashOrder(transfers[..i])
    {
      HashOrderMatchesGroups(transfers[..i]);
      assert transfers[..i + 1][..i] == transfers[..i];
      var tokenTx := transfers[i];
      var hash := tokenTx.hash;
      if hash !in groups {
        groups := groups[hash := []];
        order := order + [hash];
      }
      groups := groups[hash := groups[hash] + [tokenTx]];
    }
    assert transfers[..|transfers|] == transfers;
    HashOrderMatchesGroups(transfers);
  }

  /** Sorting neither adds nor drops a trade. */
  lemma SortKeepsTrades(trades: seq<AlphaTradeDetail>)
    ensures forall d :: d in SortByTimestampDesc(trades) <==> d in trades
  {
    var sorted := SortByTimestampDesc(trades);
    forall d ensures d in sorted <==> d in trades {
      assert d in sorted <==> d in multiset(sorted);
      assert d in trades <==> d in multiset(trades);
    }
  }

  /** Sorting keeps the trades, so it keeps their hashes distinct. */
  lemma SortKeepsDistinctHashes(trades: seq<AlphaTradeDetail>)
    requires forall i, j :: 0 <= i < j < |trades| ==> trades[i].hash != trades[j].hash
    ensures forall i, j :: 0 <= i < j < |SortByTimestampDesc(trades)| ==>
      SortByTimestampDesc(trades)[i].hash != SortByTimestampDesc(trades)[j].hash
  {
    var sorted := SortByTimestampDesc(trades);
    forall i, j | 0 <= i < j < |sorted| ensures sorted[i].hash != sorted[j].hash {
      assert sorted[i] in multiset(trades) && sorted[j] in multiset(trades);
      var i' :| 0 <= i' < |trades| && trades[i'] == sorted[i];
      var j' :| 0 <= j' < |trades| && trades[j'] == sorted[j];
      if i' == j' {
        // Two positions of the sorted list holding one trade would need it twice in the input.
        MultisetCountTwo(sorted, i, j);
        MultisetCountOne(trades, i');
        assert false;
      }
    }
  }

  lemma {:induction false} MultisetCountTwo<T>(s: seq<T>, i: nat, j: nat)
    requires i < j < |s| && s[i] == s[j]
    ensures multiset(s)[s[i]] >= 2
  {
    assert s == s[..i] + [s[i]] + s[i + 1..j] + [s[j]] + s[j + 1..];
  }

  lemma {:induction false} MultisetCountOne(s: seq<AlphaTradeDetail>, k: nat)
    requires k < |s|
    requires forall i, j :: 0 <= i < j < |s| ==> s[i].hash != s[j].hash
    ensures multiset(s)[s[k]] == 1
  {
    assert s == s[..k] + [s[k]] + s[k + 1..];
    assert s[k] !in s[..k];
    assert s[k] !in s[k + 1..];
  }
}
