/** The explorer client of src/services/bscscan.ts (`BSCScanService`): the block lookup by
    timestamp, the start of the current UTC day, the single-page requests and the pagination
    loops that collect every page. The HTTP endpoint is a parameter of the service: for each
    query it either answers with a response envelope or fails (`Err`, a request that throws). */
module Bscscan {
  import opened Common
  import opened Types

  /** The `offset` of the pagination loops: entries requested per page. */
  const PageSize: nat := 1000
  /** The default `endBlock`. */
  const DefaultEndBlock: string := "99999999"
  const TxListAction: string := "txlist"
  const TokenTxAction: string := "tokentx"
  const SortOrder: string := "desc"
  const SuccessStatus: string := "1"
  const MillisPerDay: int := 86_400_000
  const SecondsPerDay: int := 86_400

  /** The query of `getblocknobytime` with `closest: 'before'`. */
  datatype BlockQuery = BlockQuery(timestamp: int, closest: string, apiKey: string)

  /** The query of an account action (`txlist` or `tokentx`). */
  datatype AccountQuery = AccountQuery(
    action: string,
    address: string,
    startBlock: string,
    endBlock: string,
    page: nat,
    offset: nat,
    sort: string,
    apiKey: string)

  // ---------------------------------------------------------------------------
  // Status handling

  /** `getBlockByTimestamp`'s reading of a response: the result on status `"1"`, otherwise an
      error carrying the response's message; a failed request stays an error. */
  function BlockResult(response: Result<BscScanResponse<string>, string>): (r: Result<string, string>)
    ensures r.Ok? <==> response.Ok? && response.value.status == SuccessStatus
    ensures r.Ok? ==> r.value == response.value.result
    ensures response.Ok? && response.value.status != SuccessStatus ==> r == Err(response.value.message)
  {
    match response
    case Err(e) => Err(e)
    case Ok(data) => if data.status == SuccessStatus then Ok(data.result) else Err(data.message)
  }

  /** `getTransactions`'s and `getTokenTransactions`' reading of a response: the entries on
      status `"1"`, no entries for any other status; a failed request stays an error. */
  function PageResult<T>(response: Result<BscScanResponse<seq<T>>, string>): (r: Result<seq<T>, string>)
    ensures r.Err? <==> response.Err?
    ensures response.Ok? && response.value.status != SuccessStatus ==> r == Ok([])
    ensures response.Ok? && response.value.status == SuccessStatus ==> r == Ok(response.value.result)
  {
    match response
    case Err(e) => Err(e)
    case Ok(data) => if data.status == SuccessStatus then Ok(data.result) else Ok([])
  }

  // ---------------------------------------------------------------------------
  // The start of the UTC day

  /** `getTodayStartBlock`'s timestamp for a clock reading of `nowMs` milliseconds: midnight UTC
      of that day, in whole seconds. The source goes through the UTC year, month and day; that
      day's midnight is the reading rounded down to a whole number of days. */
  function TodayStartTimestamp(nowMs: int): (t: int)
    ensures t % SecondsPerDay == 0
    ensures t * 1000 <= nowMs < t * 1000 + MillisPerDay
  {
    DayFloor(nowMs);
    (nowMs / MillisPerDay) * SecondsPerDay
  }

  lemma DayFloor(nowMs: int)
    ensures var d := nowMs / MillisPerDay;
      && (d * SecondsPerDay) % SecondsPerDay == 0
      && d * SecondsPerDay * 1000 == d * MillisPerDay
      && d * MillisPerDay <= nowMs < d * MillisPerDay + MillisPerDay
  {
  }

  /** Euclidean division by a positive divisor is the unique quotient. */
  lemma DivUnique(x: int, d: int, m: int)
    requires m > 0 && d * m <= x < d * m + m
    ensures x / m == d
  {
    var q := x / m;
    assert q * m <= x < q * m + m;
    assert (q - d) * m < m && (d - q) * m < m;
    MulBelowOne(q - d, m);
    MulBelowOne(d - q, m);
  }

  lemma MulBelowOne(a: int, m: int)
    requires m > 0 && a * m < m
    ensures a < 1
  {
  }

  /** Every reading within one UTC day gives the same start, and the next day starts 86400
      seconds later. */
  lemma TodayStartPerDay(nowMs: int, laterMs: int)
    requires TodayStartTimestamp(nowMs) * 1000 <= laterMs < TodayStartTimestamp(nowMs) * 1000 + MillisPerDay
    ensures TodayStartTimestamp(laterMs) == TodayStartTimestamp(nowMs)
    ensures TodayStartTimestamp(laterMs + MillisPerDay) == TodayStartTimestamp(nowMs) + SecondsPerDay
  {
    var d := nowMs / MillisPerDay;
    DayFloor(nowMs);
    DivUnique(laterMs, d, MillisPerDay);
    DivUnique(laterMs + MillisPerDay, d + 1, MillisPerDay);
  }

  // ---------------------------------------------------------------------------
  // Pagination

  /** A page after which the loops ask for the next one: fetched, with at least `offset`
      entries. */
  predicate Full<T>(page: Result<seq<T>, string>) {
    page.Ok? && |page.value| >= PageSize
  }

  /** `items` followed by the outcome of the remaining pages; an error stays an error. */
  function Prepend<T>(items: seq<T>, rest: Result<seq<T>, string>): Result<seq<T>, string> {
    match rest
    case Ok(more) => Ok(items + more)
    case Err(e) => Err(e)
  }

  lemma PrependNothing<T>(rest: Result<seq<T>, string>)
    ensures Prepend([], rest) == rest
  {
    if rest.Ok? {
      assert [] + rest.value == rest.value;
    }
  }

  lemma PrependTwice<T>(a: seq<T>, b: seq<T>, rest: Result<seq<T>, string>)
    ensures Prepend(a, Prepend(b, rest)) == Prepend(a + b, rest)
  {
    if rest.Ok? {
      assert a + (b + rest.value) == (a + b) + rest.value;
    }
  }

  /** The outcome of the pagination loop from `page` on, where `fetch(p)` is page `p` and page
      `last` ends the loop: an error aborts the whole collection, an empty page stops it, a short
      page is the last one kept, and a full page is followed by the next one. `last` bounds the
      loop, which in the source can run forever when every page is full. */
  function Collected<T>(fetch: nat -> Result<seq<T>, string>, page: nat, last: nat): Result<seq<T>, string>
    requires 1 <= page <= last && !Full(fetch(last))
    decreases last - page
  {
    match fetch(page)
    case Err(e) => Err(e)
    case Ok(items) =>
      if |items| == 0 then Ok([])
      else if |items| < PageSize then Ok(items)
      else Prepend(items, Collected(fetch, page + 1, last))
  }

  /** The entries of the full pages `lo` up to, not including, `hi`, in page order. */
  function Pages<T>(fetch: nat -> Result<seq<T>, string>, lo: nat, hi: nat): seq<T>
    requires lo <= hi && forall k :: lo <= k < hi ==> Full(fetch(k))
    decreases hi - lo
  {
    if lo == hi then [] else assert Full(fetch(lo)); fetch(lo).value + Pages(fetch, lo + 1, hi)
  }

  /** After full pages `lo` … `hi - 1`, the collection is those pages' entries, in page order,
      followed by whatever the pages from `hi` on give. */
  lemma {:induction false} CollectedConcatenatesPages<T>(fetch: nat -> Result<seq<T>, string>, lo: nat, hi: nat, last: nat)
    requires 1 <= lo <= hi <= last && !Full(fetch(last))
    requires forall k :: lo <= k < hi ==> Full(fetch(k))
    ensures Collected(fetch, lo, last) == Prepend(Pages(fetch, lo, hi), Collected(fetch, hi, last))
    decreases hi - lo
  {
    if lo < hi {
      CollectedConcatenatesPages(fetch, lo + 1, hi, last);
      PrependTwice(fetch(lo).value, Pages(fetch, lo + 1, hi), Collected(fetch, hi, last));
    } else {
      PrependNothing(Collected(fetch, hi, last));
    }
  }

  /** The result of a collection that stops at page `stop`: every full page before it in order,
      then the short page itself; an empty page adds nothing and an error discards everything. */
  lemma CollectedStopsAt<T>(fetch: nat -> Result<seq<T>, string>, stop: nat, last: nat)
    requires 1 <= stop <= last && !Full(fetch(last)) && !Full(fetch(stop))
    requires forall k :: 1 <= k < stop ==> Full(fetch(k))
    ensures fetch(stop).Err? ==> Collected(fetch, 1, last) == Err(fetch(stop).error)
    ensures fetch(stop).Ok? ==> Collected(fetch, 1, last) == Ok(Pages(fetch, 1, stop) + fetch(stop).value)
  {
    CollectedConcatenatesPages(fetch, 1, stop, last);
    if fetch(stop).Ok? && |fetch(stop).value| == 0 {
      assert fetch(stop).value == [];
      assert Pages(fetch, 1, stop) + [] == Pages(fetch, 1, stop);
    }
  }

  /** Pages after the first one that ends the loop are never requested: two endpoints that agree
      up to that page give the same collection, whatever bound either is given. */
  lemma {:induction false} CollectedReadsOnlyThrough<T>(fetch: nat -> Result<seq<T>, string>, fetch': nat -> Result<seq<T>, string>, page: nat, stop: nat, last: nat)
    requires 1 <= page <= stop <= last && !Full(fetch(last)) && !Full(fetch(stop))
    requires forall k :: page <= k < stop ==> Full(fetch(k))
    requires forall k :: page <= k <= stop ==> fetch'(k) == fetch(k)
    ensures Collected(fetch, page, last) == Collected(fetch', page, stop)
    decreases stop - page
  {
    if page < stop {
      CollectedReadsOnlyThrough(fetch, fetch', page + 1, stop, last);
    }
  }

  /** The bound is only a proof device: any two bounds give the same collection. */
  lemma CollectedBoundIrrelevant<T>(fetch: nat -> Result<seq<T>, string>, page: nat, last1: nat, last2: nat)
    requires 1 <= page <= last1 && !Full(fetch(last1))
    requires page <= last2 && !Full(fetch(last2))
    ensures Collected(fetch, page, last1) == Collected(fetch, page, last2)
  {
    var stop := FirstStop(fetch, page, last1);
    CollectedReadsOnlyThrough(fetch, fetch, page, stop, last1);
    CollectedReadsOnlyThrough(fetch, fetch, page, stop, last2);
  }

  /** The first page from `page` on that ends the loop; no later than any bound. */
  function FirstStop<T>(fetch: nat -> Result<seq<T>, string>, page: nat, last: nat): (stop: nat)
    requires page <= last && !Full(fetch(last))
    ensures page <= stop <= last && !Full(fetch(stop))
    ensures forall k :: page <= k < stop ==> Full(fetch(k))
    ensures forall last' :: page <= last' && !Full(fetch(last')) ==> stop <= last'
    decreases last - page
  {
    if !Full(fetch(page)) then page else FirstStop(fetch, page + 1, last)
  }

  /** One step of the loop: the accumulated entries followed by the collection from the current
      page are the collection from the next page on, with this page's entries in between. */
  lemma CollectedStep<T>(fetch: nat -> Result<seq<T>, string>, acc: seq<T>, page: nat, last: nat)
    requires 1 <= page <= last && !Full(fetch(last)) && Full(fetch(page))
    ensures page < last
    ensures Prepend(acc, Collected(fetch, page, last)) ==
      Prepend(acc + fetch(page).value, Collected(fetch, page + 1, last))
  {
    PrependTwice(acc, fetch(page).value, Collected(fetch, page + 1, last));
  }

  // ---------------------------------------------------------------------------
  // The service

  datatype TodayData = TodayData(startBlock: string, transactions: seq<Transaction>, tokenTransactions: seq<TokenTransaction>)

  /** `BSCScanService` with its API key and the explorer's three endpoints. */
  class BSCScanService {
    const apiKey: string
    const blockApi: BlockQuery -> Result<BscScanResponse<string>, string>
    const txApi: AccountQuery -> Result<BscScanResponse<seq<Transaction>>, string>
    const tokenTxApi: AccountQuery -> Result<BscScanResponse<seq<TokenTransaction>>, string>

    constructor (
      apiKey: string,
      blockApi: BlockQuery -> Result<BscScanResponse<string>, string>,
      txApi: AccountQuery -> Result<BscScanResponse<seq<Transaction>>, string>,
      tokenTxApi: AccountQuery -> Result<BscScanResponse<seq<TokenTransaction>>, string>)
      ensures this.apiKey == apiKey && this.blockApi == blockApi
      ensures this.txApi == txApi && this.tokenTxApi == tokenTxApi
    {
      this.apiKey := apiKey;
      this.blockApi := blockApi;
      this.txApi := txApi;
      this.tokenTxApi := tokenTxApi;
    }

    function AccountQueryOf(action: string, address: string, startBlock: string, endBlock: string, page: nat, offset: nat): AccountQuery {
      AccountQuery(action, address, startBlock, endBlock, page, offset, SortOrder, apiKey)
    }

    /** Page `p` of the transactions the pagination loop requests. */
    function TxPages(address: string, startBlock: string): nat -> Result<seq<Transaction>, string> {
      (p: nat) => PageResult(txApi(AccountQueryOf(TxListAction, address, startBlock, DefaultEndBlock, p, PageSize)))
    }

    /** Page `p` of the token transfers the pagination loop requests. */
    function TokenTxPages(address: string, startBlock: string): nat -> Result<seq<TokenTransaction>, string> {
      (p: nat) => PageResult(tokenTxApi(AccountQueryOf(TokenTxAction, address, startBlock, DefaultEndBlock, p, PageSize)))
    }

    /** The block `getTodayStartBlock` reports for a clock reading of `nowMs`. */
    function TodayStartBlock(nowMs: int): Result<string, string> {
      BlockResult(blockApi(BlockQuery(TodayStartTimestamp(nowMs), "before", apiKey)))
    }

    /** `getBlockByTimestamp(timestamp)`. */
    method GetBlockByTimestamp(timestamp: int) returns (r: Result<string, string>)
      ensures r == BlockResult(blockApi(BlockQuery(timestamp, "before", apiKey)))
    {
      var response := blockApi(BlockQuery(timestamp, "before", apiKey));
      if response.Err? {
        return Err(response.error);
      }
      if response.value.status == SuccessStatus {
        return Ok(response.value.result);
      }
      return Err(response.value.message);
    }

    /** `getTodayStartBlock()` with the clock reading `nowMs`. */
    method GetTodayStartBlock(nowMs: int) returns (r: Result<string, string>)
      ensures r == TodayStartBlock(nowMs)
    {
      var dayStartMs := (nowMs / MillisPerDay) * MillisPerDay;
      var timestamp := dayStartMs / 1000;
      assert timestamp == TodayStartTimestamp(nowMs);
      r := GetBlockByTimestamp(timestamp);
    }

    /** `getTransactions(address, startBlock, endBlock = '99999999', page = 1, offset = 1000)`. */
    method GetTransactions(address: string, startBlock: string, endBlock: string := DefaultEndBlock,
                           page: nat := 1, offset: nat := PageSize) returns (r: Result<seq<Transaction>, string>)
      ensures r == PageResult(txApi(AccountQueryOf(TxListAction, address, startBlock, endBlock, page, offset)))
    {
      var response := txApi(AccountQueryOf(TxListAction, address, startBlock, endBlock, page, offset));
      if response.Err? {
        return Err(response.error);
      }
      if response.value.status == SuccessStatus {
        return Ok(response.value.result);
      }
      return Ok([]);
    }

    /** `getTokenTransactions(address, startBlock, endBlock = '99999999', page = 1, offset = 1000)`. */
    method GetTokenTransactions(address: string, startBlock: string, endBlock: string := DefaultEndBlock,
                                page: nat := 1, offset: nat := PageSize) returns (r: Result<seq<TokenTransaction>, string>)
      ensures r == PageResult(tokenTxApi(AccountQueryOf(TokenTxAction, address, startBlock, endBlock, page, offset)))
    {
      var response := tokenTxApi(AccountQueryOf(TokenTxAction, address, startBlock, endBlock, page, offset));
      if response.Err? {
        return Err(response.error);
      }
      if response.value.status == SuccessStatus {
        return Ok(response.value.result);
      }
      return Ok([]);
    }

    /** `getAllTransactions(address, startBlock)`, given a page `last` that ends the loop. */
    method GetAllTransactions(address: string, startBlock: string, ghost last: nat) returns (r: Result<seq<Transaction>, string>)
      requires 1 <= last && !Full(TxPages(address, startBlock)(last))
      ensures r == Collected(TxPages(address, startBlock), 1, last)
    {
      ghost var fetch := TxPages(address, startBlock);
      var allTransactions: seq<Transaction> := [];
      var page: nat := 1;
      PrependNothing(Collected(fetch, 1, last));
      while true
        invariant 1 <= page <= last
        invariant Collected(fetch, 1, last) == Prepend(allTransactions, Collected(fetch, page, last))
        decreases last - page
      {
        var transactions := GetTransactions(address, startBlock, DefaultEndBlock, page, PageSize);
        assert transactions == fetch(page);
        if transactions.Err? {
          return Err(transactions.error);
        }
        if |transactions.value| == 0 {
          assert allTransactions + [] == allTransactions;
          break;
        }
        if |transactions.value| < PageSize {
          allTransactions := allTransactions + transactions.value;
          break;
        }
        CollectedStep(fetch, allTransactions, page, last);
        allTransactions := allTransactions + transactions.value;
        page := page + 1;
      }
      return Ok(allTransactions);
    }

    /** `getAllTokenTransactions(address, startBlock)`, given a page `last` that ends the loop. */
    method GetAllTokenTransactions(address: string, startBlock: string, ghost last: nat) returns (r: Result<seq<TokenTransaction>, string>)
      requires 1 <= last && !Full(TokenTxPages(address, startBlock)(last))
      ensures r == Collected(TokenTxPages(address, startBlock), 1, last)
    {
      ghost var fetch := TokenTxPages(address, startBlock);
      var allTokenTransactions: seq<TokenTransaction> := [];
      var page: nat := 1;
      PrependNothing(Collected(fetch, 1, last));
      while true
        invariant 1 <= page <= last
        invariant Collected(fetch, 1, last) == Prepend(allTokenTransactions, Collected(fetch, page, last))
        decreases last - page
      {
        var tokenTransactions := GetTokenTransactions(address, startBlock, DefaultEndBlock, page, PageSize);
        assert tokenTransactions == fetch(page);
        if tokenTransactions.Err? {
          return Err(tokenTransactions.error);
        }
        if |tokenTransactions.value| == 0 {
          assert allTokenTransactions + [] == allTokenTransactions;
          break;
        }
        if |tokenTransactions.value| < PageSize {
          allTokenTransactions := allTokenTransactions + tokenTransactions.value;
          break;
        }
        CollectedStep(fetch, allTokenTransactions, page, last);
        allTokenTransactions := allTokenTransactions + tokenTransactions.value;
        page := page + 1;
      }
      return Ok(allTokenTransactions);
    }

    /** A response whose status is not `"1"` counts as an empty page and ends the collection with
        the entries gathered so far. */
    lemma NonSuccessStatusEndsPagination(address: string, startBlock: string, page: nat, last: nat)
      requires 1 <= page <= last && !Full(TxPages(address, startBlock)(last))
      requires var response := txApi(AccountQueryOf(TxListAction, address, startBlock, DefaultEndBlock, page, PageSize));
        response.Ok? && response.value.status != SuccessStatus
      ensures Collected(TxPages(address, startBlock), page, last) == Ok([])
    {
    }

    /** `getTodayData(address)` with the clock reading `nowMs`: the day's start block and, from
        it, every transaction and token transfer; a failure of any of the three fails the whole
        call. */
    method GetTodayData(address: string, nowMs: int, ghost last: nat, ghost tokenLast: nat) returns (r: Result<TodayData, string>)
      requires TodayStartBlock(nowMs).Ok? ==>
        && 1 <= last && !Full(TxPages(address, TodayStartBlock(nowMs).value)(last))
        && 1 <= tokenLast && !Full(TokenTxPages(address, TodayStartBlock(nowMs).value)(tokenLast))
      ensures TodayStartBlock(nowMs).Err? ==> r.Err?
      ensures TodayStartBlock(nowMs).Ok? ==>
        var startBlock := TodayStartBlock(nowMs).value;
        var txs := Collected(TxPages(address, startBlock), 1, last);
        var tokenTxs := Collected(TokenTxPages(address, startBlock), 1, tokenLast);
        && (r.Ok? <==> txs.Ok? && tokenTxs.Ok?)
        && (r.Ok? ==> r.value == TodayData(startBlock, txs.value, tokenTxs.value))
    {
      var startBlock := GetTodayStartBlock(nowMs);
      if startBlock.Err? {
        return Err(startBlock.error);
      }
      var transactions := GetAllTransactions(address, startBlock.value, last);
      var tokenTransactions := GetAllTokenTransactions(address, startBlock.value, tokenLast);
      if transactions.Err? {
        return Err(transactions.error);
      }
      if tokenTransactions.Err? {
        return Err(tokenTransactions.error);
      }
      return Ok(TodayData(startBlock.value, transactions.value, tokenTransactions.value));
    }
  }
}
