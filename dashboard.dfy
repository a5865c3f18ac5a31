/**
 * The browser dashboard (`app.js`): the closure state updated by the
 * socket callbacks (`reconnectAttempts` and the message log shown in
 * `messageContainer`), the pairs-text parsing, the table row id and the
 * sign classification of the daily change. The DOM, timers and `fetch`
 * are outside the model; a log entry is the message and its type.
 */
module Dashboard {
  import opened Wrappers
  import opened Text

  const MAX_RECONNECT_ATTEMPTS: nat := 5
  /** Milliseconds before a scheduled reconnect. */
  const RECONNECT_DELAY: nat := 5000
  /** The most entries the message log keeps. */
  const MAX_LOG: nat := 100

  function Min(a: nat, b: nat): nat {
    if a <= b then a else b
  }

  // ---------------------------------------------------------------------
  // The reconnect counter

  /** What `onclose` did: whether it scheduled a reconnect, and the counter afterwards. */
  datatype CloseResult = CloseResult(scheduled: bool, attempts: nat)

  /**
   * `onclose`: a reconnect is scheduled, and counted, only while fewer than
   * the maximum number of attempts have been made; otherwise nothing changes.
   */
  function CloseStep(attempts: nat): (r: CloseResult)
    ensures r.scheduled <==> attempts < MAX_RECONNECT_ATTEMPTS
    ensures r.attempts == if r.scheduled then attempts + 1 else attempts
    ensures attempts <= MAX_RECONNECT_ATTEMPTS ==> r.attempts <= MAX_RECONNECT_ATTEMPTS
  {
    if attempts < MAX_RECONNECT_ATTEMPTS then CloseResult(true, attempts + 1) else CloseResult(false, attempts)
  }

  /** The counter and the number of reconnects scheduled over `n` closes with no open between them. */
  datatype Reconnects = Reconnects(attempts: nat, scheduled: nat)

  function AfterCloses(attempts: nat, n: nat): Reconnects
  {
    if n == 0 then Reconnects(attempts, 0)
    else
      var before := AfterCloses(attempts, n - 1);
      var step := CloseStep(before.attempts);
      Reconnects(step.attempts, before.scheduled + if step.scheduled then 1 else 0)
  }

  /**
   * From a counter of `c` (at most the maximum), `n` closes in a row
   * schedule `min(n, 5 - c)` reconnects and leave the counter at
   * `min(c + n, 5)`: after an open (`c == 0`) at most five reconnects are
   * ever scheduled, and the counter never exceeds the maximum.
   */
  lemma {:induction false} AtMostFiveReconnects(c: nat, n: nat)
    requires c <= MAX_RECONNECT_ATTEMPTS
    ensures AfterCloses(c, n) == Reconnects(Min(c + n, MAX_RECONNECT_ATTEMPTS), Min(n, MAX_RECONNECT_ATTEMPTS - c))
  {
    if n > 0 {
      AtMostFiveReconnects(c, n - 1);
    }
  }

  // ---------------------------------------------------------------------
  // The message log

  datatype MessageType = Info | Error | Success

  /** One item of the message log. */
  datatype LogEntry = LogEntry(message: string, kind: MessageType)

  /**
   * The end of `addMessage`: the new entry goes in front and, when the log
   * then holds more than the limit, the last (oldest) entry is dropped. The
   * older entries keep their order, one place further down.
   */
  function WithMessage(log: seq<LogEntry>, e: LogEntry): (r: seq<LogEntry>)
    ensures |r| >= 1 && r[0] == e
    ensures |r| == if |log| < MAX_LOG then |log| + 1 else |log|
    ensures forall i :: 1 <= i < |r| ==> r[i] == log[i - 1]
  {
    var grown := [e] + log;
    if |grown| > MAX_LOG then grown[..|grown| - 1] else grown
  }

  /** The log after adding `entries` one by one, the first of them first. */
  function AddAll(log: seq<LogEntry>, entries: seq<LogEntry>): seq<LogEntry>
  {
    if entries == [] then log
    else WithMessage(AddAll(log, entries[..|entries| - 1]), entries[|entries| - 1])
  }

  /** `s` backwards. */
  function Reverse<T>(s: seq<T>): (r: seq<T>)
    ensures |r| == |s|
    ensures forall i :: 0 <= i < |s| ==> r[i] == s[|s| - 1 - i]
  {
    if s == [] then [] else [s[|s| - 1]] + Reverse(s[..|s| - 1])
  }

  /** The newest `MAX_LOG` of `entries`, newest first. */
  function Newest(entries: seq<LogEntry>): seq<LogEntry>
  {
    Reverse(entries)[..Min(|entries|, MAX_LOG)]
  }

  /**
   * Starting from an empty log, the log always shows exactly the newest
   * hundred messages added, newest first.
   */
  lemma {:induction false} LogHoldsNewest(entries: seq<LogEntry>)
    ensures AddAll([], entries) == Newest(entries)
  {
    if entries != [] {
      var prefix := entries[..|entries| - 1];
      var e := entries[|entries| - 1];
      LogHoldsNewest(prefix);
      var r := AddAll([], entries);
      var n := Newest(entries);
      assert |r| == |n|;
      forall i | 0 <= i < |r| ensures r[i] == n[i] {
        if i > 0 {
          assert r[i] == Newest(prefix)[i - 1];
        }
      }
    }
  }

  /** A log within the limit stays within it whatever is added. */
  lemma {:induction false} AddAllBounded(log: seq<LogEntry>, entries: seq<LogEntry>)
    requires |log| <= MAX_LOG
    ensures |AddAll(log, entries)| <= MAX_LOG
    ensures |AddAll(log, entries)| == Min(|log| + |entries|, MAX_LOG)
  {
    if entries != [] {
      AddAllBounded(log, entries[..|entries| - 1]);
    }
  }

  // ---------------------------------------------------------------------
  // The dashboard's closure state

  /** A positive number in decimal, as template literals print it. */
  function Decimal(n: nat): (s: string)
    ensures |s| >= 1
  {
    if n < 10 then ["0123456789"[n]] else Decimal(n / 10) + ["0123456789"[n % 10]]
  }

  class Dashboard {
    /** `reconnectAttempts`. */
    var reconnectAttempts: nat
    /** The items of `messageContainer`, newest first. */
    var log: seq<LogEntry>

    ghost predicate Valid()
      reads this
    {
      reconnectAttempts <= MAX_RECONNECT_ATTEMPTS && |log| <= MAX_LOG
    }

    /** The state when the page has loaded. */
    constructor ()
      ensures reconnectAttempts == 0 && log == []
      ensures Valid()
    {
      reconnectAttempts := 0;
      log := [];
    }

    /** `addMessage`: the log gets the entry in front and never exceeds the limit. */
    method AddMessage(message: string, kind: MessageType)
      requires Valid()
      modifies this
      ensures Valid()
      ensures log == WithMessage(old(log), LogEntry(message, kind))
      ensures reconnectAttempts == old(reconnectAttempts)
    {
      var grown := [LogEntry(message, kind)] + log;
      if |grown| > MAX_LOG {
        grown := grown[..|grown| - 1];
      }
      log := grown;
    }

    /** `socket.onopen`: the counter is reset and the connection is logged. */
    method OnOpen()
      requires Valid()
      modifies this
      ensures Valid()
      ensures reconnectAttempts == 0
      ensures log == WithMessage(old(log), LogEntry("WebSocket connection established", Success))
    {
      reconnectAttempts := 0;
      AddMessage("WebSocket connection established", Success);
    }

    /** `socket.onmessage`: the data is logged as an information entry. */
    method OnMessage(data: string)
      requires Valid()
      modifies this
      ensures Valid()
      ensures log == WithMessage(old(log), LogEntry(data, Info))
      ensures reconnectAttempts == old(reconnectAttempts)
    {
      AddMessage(data, Info);
    }

    /**
     * `socket.onclose`: below the maximum, the counter is bumped, the attempt
     * is logged and a reconnect is scheduled `RECONNECT_DELAY` milliseconds
     * later; at the maximum only the give-up message is logged.
     */
    method OnClose() returns (scheduled: bool, reconnectAfter: Option<nat>)
      requires Valid()
      modifies this
      ensures Valid()
      ensures CloseResult(scheduled, reconnectAttempts) == CloseStep(old(reconnectAttempts))
      ensures reconnectAfter == if scheduled then Some(RECONNECT_DELAY) else None
      ensures scheduled ==> log == WithMessage(old(log),
        LogEntry("Attempting to reconnect (" + Decimal(reconnectAttempts) + "/5)...", Info))
      ensures !scheduled ==> log == WithMessage(old(log),
        LogEntry("Max reconnection attempts reached. Please refresh the page.", Error))
    {
      if reconnectAttempts < MAX_RECONNECT_ATTEMPTS {
        reconnectAttempts := reconnectAttempts + 1;
        AddMessage("Attempting to reconnect (" + Decimal(reconnectAttempts) + "/5)...", Info);
        scheduled, reconnectAfter := true, Some(RECONNECT_DELAY);
      } else {
        AddMessage("Max reconnection attempts reached. Please refresh the page.", Error);
        scheduled, reconnectAfter := false, None;
      }
    }

    /** The clear-log button: the log is emptied and then holds only its own notice. */
    method ClearLog()
      requires Valid()
      modifies this
      ensures Valid()
      ensures log == [LogEntry("Log cleared", Info)] && |log| == 1
      ensures reconnectAttempts == old(reconnectAttempts)
    {
      log := [];
      AddMessage("Log cleared", Info);
    }
  }

  /**
   * Five closes after an open schedule five reconnects, numbered 1 to 5 in
   * the log, and the sixth schedules none.
   */
  method SixClosesAfterOpen() returns (scheduled: seq<bool>, attempts: nat)
    ensures scheduled == [true, true, true, true, true, false]
    ensures attempts == MAX_RECONNECT_ATTEMPTS
  {
    var d := new Dashboard();
    d.OnOpen();
    scheduled := [];
    var i := 0;
    while i < 6
      invariant 0 <= i <= 6 && d.Valid()
      invariant d.reconnectAttempts == Min(i, MAX_RECONNECT_ATTEMPTS)
      invariant scheduled == seq(i, j => j < MAX_RECONNECT_ATTEMPTS)
    {
      var s, _ := d.OnClose();
      scheduled := scheduled + [s];
      i := i + 1;
    }
    attempts := d.reconnectAttempts;
  }

  // ---------------------------------------------------------------------
  // Pairs text, row ids and change classification

  /**
   * `readPairs` once the text has arrived: split on newlines, drop the
   * pieces that trim to nothing, trim the rest. Unlike the relays there is
   * no default pair.
   */
  function ReadPairs(text: string): (pairs: seq<string>)
    ensures forall i :: 0 <= i < |pairs| ==> pairs[i] != [] && Trimmed(pairs[i], JS_WHITESPACE)
    ensures |pairs| <= |Split(text, '\n')|
  {
    CleanLines(Split(text, '\n'), JS_WHITESPACE)
  }

  /**
   * For a text made of newline-free lines, the pairs are exactly those lines
   * trimmed, with blank ones dropped, in their original order.
   */
  lemma ReadPairsOfLines(lines: seq<string>)
    requires |lines| >= 1
    requires forall i :: 0 <= i < |lines| ==> '\n' !in lines[i]
    ensures ReadPairs(Join(lines, '\n')) == CleanLines(lines, JS_WHITESPACE)
  {
    SplitJoin(lines, '\n');
  }

  /** A pair is read exactly when some line trims to it and it is not blank. */
  lemma ReadPairsMember(text: string, pair: string)
    ensures pair in ReadPairs(text) <==>
      pair != [] && exists line :: line in Split(text, '\n') && Strip(line, JS_WHITESPACE) == pair
  {
    CleanLinesMember(Split(text, '\n'), JS_WHITESPACE, pair);
  }

  const ROW_PREFIX: string := "pair-"

  /** The id of a pair's table row: the prefix and the pair with its first `/` made a `-`. */
  function RowId(pair: string): (id: string)
    ensures |id| == |ROW_PREFIX| + |pair|
    ensures id[..|ROW_PREFIX|] == ROW_PREFIX
    ensures '/' !in pair ==> id == ROW_PREFIX + pair
  {
    ROW_PREFIX + ReplaceFirst(pair, '/', '-')
  }

  /** Pairs without a `/`, such as the exchange's own ids, get distinct row ids. */
  lemma RowIdInjective(p: string, q: string)
    requires '/' !in p && '/' !in q
    ensures RowId(p) == RowId(q) ==> p == q
  {
    if RowId(p) == RowId(q) {
      assert p == RowId(p)[|ROW_PREFIX|..];
    }
  }

  /**
   * A slash-separated pair shares its row with the dash-separated one:
   * `BTC/USDT` and `BTC-USDT` update the same row.
   */
  lemma RowIdCollision(base: string, quote: string)
    requires '/' !in base && '/' !in quote
    ensures RowId(base + "/" + quote) == RowId(base + "-" + quote)
  {
    ReplaceFirstAfter(base, '/', quote, '-');
    assert '/' !in base + "-" + quote;
  }

  /** Only the first `/` is replaced; later ones stay in the id. */
  lemma RowIdFirstSlashOnly(head: string, tail: string)
    requires '/' !in head
    ensures RowId(head + "/" + tail) == ROW_PREFIX + head + "-" + tail
  {
    ReplaceFirstAfter(head, '/', tail, '-');
  }

  /** The result of `Number(...)` on the change field. */
  datatype JsNumber = NaN | Finite(value: real) | PosInfinity | NegInfinity

  /** `x > 0` in JavaScript: false for NaN. */
  predicate IsPositive(n: JsNumber) {
    n.PosInfinity? || (n.Finite? && n.value > 0.0)
  }

  /** `x < 0` in JavaScript: false for NaN. */
  predicate IsNegative(n: JsNumber) {
    n.NegInfinity? || (n.Finite? && n.value < 0.0)
  }

  /** `getChangeClass`: the three classes partition the numbers; zero and NaN are neutral. */
  function ChangeClass(n: JsNumber): (c: string)
    ensures c == "positive" <==> IsPositive(n)
    ensures c == "negative" <==> IsNegative(n)
    ensures c == "neutral" <==> !IsPositive(n) && !IsNegative(n)
  {
    if IsPositive(n) then "positive" else if IsNegative(n) then "negative" else "neutral"
  }

  /** The status column's text: Bullish only for a positive change. */
  function StatusText(n: JsNumber): (s: string)
    ensures s == "Bullish" <==> IsPositive(n)
    ensures s == "Bearish" <==> !IsPositive(n)
  {
    if IsPositive(n) then "Bullish" else "Bearish"
  }

  /** The status cell's text and CSS class. */
  datatype StatusCell = StatusCell(text: string, cssClass: string)

  /**
   * The status update of `updatePairRow`: skipped when the change field is
   * the empty string (falsy), otherwise the status text with the change
   * class.
   */
  function StatusUpdate(sodChg: string, n: JsNumber): (r: Option<StatusCell>)
    ensures r.None? <==> sodChg == ""
    ensures r.Some? ==> r.value.text == StatusText(n) && r.value.cssClass == "status " + ChangeClass(n)
  {
    if sodChg == "" then None else Some(StatusCell(StatusText(n), "status " + ChangeClass(n)))
  }

  /**
   * The status text and the change class agree on positive changes only: a
   * change that is zero or not a number is Bearish while its class is
   * neutral, and a negative change is Bearish and negative.
   */
  lemma StatusAgreesWithClass(n: JsNumber)
    ensures StatusText(n) == "Bullish" <==> ChangeClass(n) == "positive"
    ensures ChangeClass(n) == "neutral" ==> StatusText(n) == "Bearish"
    ensures ChangeClass(n) == "negative" ==> StatusText(n) == "Bearish"
  {
  }

  /** A change field of `"0"` is truthy, so a zero change is shown, as Bearish and neutral. */
  lemma ZeroChangeIsBearish()
    ensures StatusUpdate("0", Finite(0.0)) == Some(StatusCell("Bearish", "status neutral"))
  {
    assert "status " + "neutral" == "status neutral";
  }
}
