/** The record shapes and constant tables of src/types/index.ts.

    The explorer returns every field as a decimal string; the model keeps the fields the core
    reads, already parsed: token values and decimals as naturals, timestamps as integers. */
module Types {
  import opened Common

  /** The explorer's response envelope: `status` is `"1"` on success, `message` explains a
      failure, `result` carries the payload. */
  datatype BscScanResponse<T> = BscScanResponse(status: string, message: string, result: T)

  /** A native transaction as returned by the explorer's `txlist` action. */
  datatype Transaction = Transaction(
    hash: string,
    from: string,
    to: string,
    timeStamp: int,
    gasUsed: nat,
    gasPrice: nat)

  /** A token transfer event as returned by the explorer's `tokentx` action. `value` is the raw
      integer amount, `tokenDecimal` the token's number of decimals. */
  datatype TokenTransaction = TokenTransaction(
    hash: string,
    from: string,
    to: string,
    contractAddress: string,
    value: nat,
    tokenDecimal: nat,
    tokenName: string,
    tokenSymbol: string,
    timeStamp: int)

  /** An entry of the bundled alpha token list; `price` is the configured USD price. */
  datatype AlphaToken = AlphaToken(contractAddress: string, symbol: string, price: real)

  datatype AddressHistory = AddressHistory(address: string, timestamp: int)

  datatype Settings = Settings(apiKey: string)

  /** One reconstructed swap: the sell leg (`from*`) and the buy leg (`to*`). */
  datatype AlphaTradeDetail = AlphaTradeDetail(
    hash: string,
    fromToken: string,
    toToken: string,
    fromAmount: nat,
    toAmount: nat,
    fromTokenSymbol: string,
    toTokenSymbol: string,
    usdValue: real,
    timestamp: int)

  datatype TokenBalance = TokenBalance(
    contractAddress: string,
    symbol: string,
    name: string,
    totalIn: real,
    totalOut: real,
    netAmount: real,
    currentPrice: real,
    pnl: real)

  datatype ScoreLevel = ScoreLevel(amount: nat, score: nat)

  /** SCORE_LEVELS: doubled USD volume needed for each score of the table. */
  const ScoreLevels: seq<ScoreLevel> := [
    ScoreLevel(2, 1),
    ScoreLevel(4, 2),
    ScoreLevel(8, 3),
    ScoreLevel(16, 4),
    ScoreLevel(32, 5)
  ]

  const USDT: string := "0x55d398326f99059ff775485246999027b3197955"
  const USDC: string := "0x8ac76a51cc950d9822d68b83fe1ad97b32cd580d"
  const WBNB: string := "0xbb4cdb9cbd36b01bd1cbaebf2de08d9173bc095c"

  /** `Object.values(STABLE_TOKENS)`: note that the wrapped native coin is listed too. */
  const StableTokens: seq<string> := [USDT, USDC, WBNB]

  lemma ScoreLevelsIncreasing()
    ensures forall i, j :: 0 <= i < j < |ScoreLevels| ==>
      ScoreLevels[i].amount < ScoreLevels[j].amount && ScoreLevels[i].score < ScoreLevels[j].score
  {
  }

  lemma ScoreLevelsDoubling()
    ensures forall i :: 0 < i < |ScoreLevels| ==> ScoreLevels[i].amount == 2 * ScoreLevels[i - 1].amount
  {
  }

  lemma ScoreLevelsConsecutive()
    ensures |ScoreLevels| == 5
    ensures forall i :: 0 <= i < |ScoreLevels| ==> ScoreLevels[i].score == i + 1
  {
  }

  lemma UsdtIsLower()
    ensures |USDT| == 42 && IsLower(USDT) && Lower(USDT) == USDT
  {
    LowerOfLowerCase(USDT);
  }

  lemma UsdcIsLower()
    ensures |USDC| == 42 && IsLower(USDC) && Lower(USDC) == USDC
  {
    LowerOfLowerCase(USDC);
  }

  lemma WbnbIsLower()
    ensures |WBNB| == 42 && IsLower(WBNB) && Lower(WBNB) == WBNB
  {
    LowerOfLowerCase(WBNB);
  }

  /** The three addresses are 42-character lower-case hex strings, so comparing them against a
      lower-cased address is the source's case-insensitive comparison. */
  lemma StableTokensShape()
    ensures |StableTokens| == 3 && StableTokens == [USDT, USDC, WBNB]
    ensures forall i :: 0 <= i < |StableTokens| ==> |StableTokens[i]| == 42 && IsLower(StableTokens[i])
    ensures forall i :: 0 <= i < |StableTokens| ==> Lower(StableTokens[i]) == StableTokens[i]
  {
    UsdtIsLower();
    UsdcIsLower();
    WbnbIsLower();
  }

  lemma WbnbIsStableToken()
    ensures WBNB in StableTokens && Lower(WBNB) == WBNB
  {
    StableTokensShape();
  }
}
