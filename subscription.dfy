/**
 * The subscription source and the subscribe request sent as the first
 * frame of every upstream session. Both relays define the same two
 * functions (`read_trading_pairs`, `subscribe_okx`); they differ only in
 * where the file name comes from, which is outside this model.
 */
module Subscription {
  import opened Wrappers
  import opened Text

  /** The instrument subscribed to when the pairs file cannot be read. */
  const DEFAULT_PAIR: string := "BTC-USDT"
  const SUBSCRIBE_OP: string := "subscribe"
  const TICKERS_CHANNEL: string := "tickers"

  /** One `{"channel": ..., "instId": ...}` entry of the request's `args`. */
  datatype TickerArg = TickerArg(channel: string, instId: string)

  /** The `{"op": ..., "args": [...]}` request. */
  datatype SubscribeRequest = SubscribeRequest(op: string, args: seq<TickerArg>)

  /**
   * `read_trading_pairs`: `file` is what `readlines()` returned, or None when
   * opening or reading the file raised. Every returned pair is a stripped,
   * non-blank line; a failed read gives the single default pair.
   */
  function ReadTradingPairs(file: Option<seq<string>>): (pairs: seq<string>)
    ensures file.None? ==> pairs == [DEFAULT_PAIR]
    ensures file.Some? ==> |pairs| <= |file.value|
    ensures forall i :: 0 <= i < |pairs| ==> pairs[i] != [] && Trimmed(pairs[i], PY_WHITESPACE)
  {
    match file
    case None => [DEFAULT_PAIR]
    case Some(lines) => CleanLines(lines, PY_WHITESPACE)
  }

  /** A readable file of two newline-terminated pairs yields both pairs, stripped, in file order. */
  lemma ReadTwoPairs()
    ensures ReadTradingPairs(Some(["BTC-USDT\n", "ETH-USDT\n"])) == ["BTC-USDT", "ETH-USDT"]
  {
    var btc := "BTC-USDT";
    var eth := "ETH-USDT";
    TwoLines(btc, eth);
    CleanLinesAppend([btc + "\n"], [eth + "\n"], PY_WHITESPACE);
    PairTrimmed(btc);
    PairTrimmed(eth);
    CleanOneLine(btc);
    CleanOneLine(eth);
  }

  /** The two lines of the example file are the two pairs, each with its newline. */
  lemma TwoLines(btc: string, eth: string)
    requires btc == "BTC-USDT" && eth == "ETH-USDT"
    ensures ["BTC-USDT\n", "ETH-USDT\n"] == [btc + "\n"] + [eth + "\n"]
  {
    assert "BTC-USDT\n" == btc + "\n" && "ETH-USDT\n" == eth + "\n";
  }

  /** An instrument id of letters and a dash has no surrounding whitespace. */
  lemma PairTrimmed(pair: string)
    requires pair == "BTC-USDT" || pair == "ETH-USDT"
    ensures pair != [] && Trimmed(pair, PY_WHITESPACE)
  {
  }

  /** A file of one newline-terminated pair yields that pair. */
  lemma CleanOneLine(pair: string)
    requires pair != [] && Trimmed(pair, PY_WHITESPACE)
    ensures CleanLines([pair + "\n"], PY_WHITESPACE) == [pair]
  {
    StripLine(pair);
    assert [pair + "\n"][1..] == [];
  }

  /** A non-blank pair followed by the newline that `readlines()` keeps strips back to the pair. */
  lemma StripLine(pair: string)
    requires pair != [] && Trimmed(pair, PY_WHITESPACE)
    ensures Strip(pair + "\n", PY_WHITESPACE) == pair
  {
    var s := pair + "\n";
    assert s[0] == pair[0] && s[|s| - 1] == '\n' && s[..|s| - 1] == pair;
    assert LeadingCount(s, PY_WHITESPACE) == 0;
    assert TrailingCount(pair, PY_WHITESPACE) == 0;
    assert TrailingCount(s, PY_WHITESPACE) == 1;
  }

  /**
   * A readable file whose lines are all blank gives no pairs at all: the
   * default pair is used only when reading fails.
   */
  lemma ReadBlankFile(lines: seq<string>)
    requires forall i :: 0 <= i < |lines| ==> AllIn(lines[i], PY_WHITESPACE)
    ensures ReadTradingPairs(Some(lines)) == []
  {
    CleanLinesOfBlank(lines, PY_WHITESPACE);
  }

  /** Lines kept by the reader appear in the same relative order as in the file. */
  lemma ReadKeepsOrder(a: seq<string>, b: seq<string>)
    ensures ReadTradingPairs(Some(a + b)) == ReadTradingPairs(Some(a)) + ReadTradingPairs(Some(b))
  {
    CleanLinesAppend(a, b, PY_WHITESPACE);
  }

  /** The list comprehension building `args`: one tickers entry per pair, in order. */
  function TickerArgs(pairs: seq<string>): (args: seq<TickerArg>)
    ensures |args| == |pairs|
    ensures forall i :: 0 <= i < |pairs| ==> args[i] == TickerArg(TICKERS_CHANNEL, pairs[i])
  {
    if pairs == [] then [] else [TickerArg(TICKERS_CHANNEL, pairs[0])] + TickerArgs(pairs[1..])
  }

  /** The instrument ids a request subscribes to, in order. */
  function InstIds(args: seq<TickerArg>): seq<string>
  {
    if args == [] then [] else [args[0].instId] + InstIds(args[1..])
  }

  /** Reading the ids back out of the built arguments gives the pairs back. */
  lemma {:induction false} InstIdsOfTickerArgs(pairs: seq<string>)
    ensures InstIds(TickerArgs(pairs)) == pairs
  {
    if pairs != [] {
      assert TickerArgs(pairs)[1..] == TickerArgs(pairs[1..]);
      InstIdsOfTickerArgs(pairs[1..]);
    }
  }

  /**
   * `subscribe_okx`: reads the pairs file afresh and builds the request. The
   * request subscribes to exactly the pairs read, in order, each on the
   * tickers channel.
   */
  function SubscribeOkx(file: Option<seq<string>>): (request: SubscribeRequest)
    ensures request.op == SUBSCRIBE_OP
    ensures |request.args| == |ReadTradingPairs(file)|
    ensures InstIds(request.args) == ReadTradingPairs(file)
    ensures forall i :: 0 <= i < |request.args| ==> request.args[i].channel == TICKERS_CHANNEL
  {
    var pairs := ReadTradingPairs(file);
    InstIdsOfTickerArgs(pairs);
    SubscribeRequest(SUBSCRIBE_OP, TickerArgs(pairs))
  }

  /** An unreadable pairs file still yields a request, for the default pair alone. */
  lemma SubscribeUnreadable()
    ensures SubscribeOkx(None) == SubscribeRequest(SUBSCRIBE_OP, [TickerArg(TICKERS_CHANNEL, DEFAULT_PAIR)])
  {
  }
}
