# OKX websocket relay — a Dafny model

This project models the okx-websocket-relay's decision logic. The relay
holds one upstream websocket to the OKX public feed. It subscribes to the
tickers channel for every trading pair listed in a pairs file. It forwards
every text frame it receives, unchanged, to all connected downstream
clients. The cloud variant also parses each frame and forwards it to an
optional Pub/Sub topic. A browser dashboard shows the feed.

Sockets, timers and cloud clients are replaced by oracles (parameters that
supply their outcomes):

- a connection attempt is `ConnectFailed`, or `Connected` with the pairs file as read at that moment and the frames the session delivers;
- a client send fails or not according to `sendFails(k, c)`, where `k` numbers the broadcast;
- JSON parsing is a partial function;
- a Pub/Sub publish either raises or does not.

What the loops do besides changing the client registry is recorded as a
trace of actions (subscribe, broadcast, forward, parse warning, sleep).

Modules:

- `Text`: Python `str.strip`, JavaScript `trim` and `split`, the "strip and drop blank lines" comprehension, and replacing the first occurrence of a character.
- `Subscription`: `read_trading_pairs` and `subscribe_okx`, which are identical in both relays.
- `Registry`: the `connected_clients` set as a `ClientRegistry` class.
  - `add` and `remove`: Python's `set.remove` raises `KeyError` on a missing element, and the model keeps that.
  - `broadcast_to_clients`: one send attempt per client, with failure isolation.
- `Retry`: the upstream retry counter as a pure step function, with the 5, 5, 5, 5, 10 second cycle.
- `Sink`: the guard and the exception swallowing of `publish_to_pubsub`.
- `Upstream`: shared by both relays.
  - The session read loop (`RelaySession`) and the supervising loop (`Run`) as imperative methods.
  - Each is proved against a specification function (`SessionActions`, `RunActions`) that lemmas then describe.
- `CloudRelay`: the `CloudWebSocketRelay` class.
  - Admission under `MAX_CONNECTIONS`, the connection handler with its cleanup, and the upstream loop in cloud mode.
- `LocalRelay`: the local relay's handler, which has no capacity limit, and its upstream loop in local mode, which has no sink.
- `Dashboard`: the `app.js` closure state.
  - The reconnect counter and the bounded message log newest first, in a `Dashboard` class.
  - Pairs-text parsing, row ids, `getChangeClass` and the Bullish/Bearish rule.

Notes on the code's behaviour that the model keeps:

- A readable pairs file whose lines are all blank yields no pairs and an empty subscribe request; the code falls back to `BTC-USDT` only when reading raises (cloud_relay.py:61-63, `Subscription.ReadBlankFile`).
- Cleanup uses `set.remove` (cloud_relay.py:96,118), which raises `KeyError` for a client already gone; the model keeps the raising removal; see Findings.

## Model

| member | source | states |
|---|---|---|
| Text.Strip | cloud_relay.py:58 | `line.strip()`: the result has no whitespace at either end and is no longer than the line; it is empty exactly when the line is all whitespace |
| Text.StripIsInfix | cloud_relay.py:58 | stripping removes only whitespace, and only from the two ends: the result is a contiguous slice of the line with whitespace on both sides of it |
| Text.StripTrimmed | cloud_relay.py:58 | stripping a line that has no surrounding whitespace changes nothing |
| Text.CleanLines | cloud_relay.py:58 | the comprehension `[line.strip() for line in lines if line.strip()]`: no more entries than lines, every entry non-empty and stripped |
| Text.CleanLinesMember | cloud_relay.py:58 | a string is kept exactly when it is non-empty and some line strips to it |
| Text.CleanLinesAppend | cloud_relay.py:58 | cleaning keeps order: cleaning two blocks of lines is cleaning each and concatenating |
| Text.CleanLinesOfClean | cloud_relay.py:58 | lines that are already stripped and non-empty come back unchanged |
| Text.CleanLinesOfBlank | cloud_relay.py:58 | lines that are all whitespace give no entries |
| Text.Split | app.js:162 | `text.split('\n')` gives at least one piece and no piece contains the separator |
| Text.JoinSplit | app.js:162 | splitting loses nothing: joining the pieces with the separator gives the text back |
| Text.SplitJoin | app.js:162 | separator-free pieces are recovered by splitting their join |
| Text.ReplaceFirst | app.js:30 | `replace('/', '-')` with a string pattern: the length is unchanged; a string without `/` is unchanged; otherwise only the first `/` becomes `-` |
| Subscription.ReadTradingPairs | cloud_relay.py:53-63 | an unreadable file gives exactly `["BTC-USDT"]`; a readable one gives no more pairs than lines, each non-empty and stripped (the same code is at websocket_relay.py:27-37) |
| Subscription.ReadTwoPairs | tests/test_cloud_relay.py:15-25 | the lines `BTC-USDT\n` and `ETH-USDT\n` give exactly the two pairs, in file order |
| Subscription.StripLine | tests/test_cloud_relay.py:16-19 | a pair followed by the newline that `readlines()` keeps strips back to the pair |
| Subscription.ReadBlankFile | cloud_relay.py:57-60 | a readable file of blank lines gives no pairs; there is no fallback to the default |
| Subscription.ReadKeepsOrder | cloud_relay.py:58 | pairs appear in file order: reading two blocks of lines is reading each and concatenating |
| Subscription.TickerArgs | cloud_relay.py:126-131 | one `{"channel": "tickers", "instId": pair}` entry per pair, at the same position |
| Subscription.InstIdsOfTickerArgs | cloud_relay.py:126-131 | the instrument ids read back from the entries are the pairs, in order |
| Subscription.SubscribeOkx | cloud_relay.py:121-132 | the request has op `subscribe`, one tickers entry per pair read, and subscribes to exactly those pairs in order (the same code is at websocket_relay.py:39-50) |
| Subscription.SubscribeUnreadable | cloud_relay.py:121-132 | an unreadable pairs file still yields a request, for `BTC-USDT` alone |
| Registry.Failed | cloud_relay.py:84-92 | the clients whose send raised: a subset of the clients, exactly those the oracle fails |
| Registry.ClientRegistry.constructor | cloud_relay.py:44 | the registry starts empty |
| Registry.ClientRegistry.Add | cloud_relay.py:107 | `connected_clients.add`: the client is added and nothing else changes |
| Registry.ClientRegistry.Remove | cloud_relay.py:118 | `connected_clients.remove`: the client is gone afterwards, and the result is `KeyError` exactly when it was not registered |
| Registry.ClientRegistry.Discard | cloud_relay.py:118 | the non-raising removal the corrected handler uses: the client is gone afterwards |
| Registry.ClientRegistry.SendAll | cloud_relay.py:84-92 | every client of the snapshot gets exactly one attempt of the message, and the attempts are never repeated; a raising send does not stop the others; the collected set is exactly the clients whose send raised |
| Registry.ClientRegistry.Broadcast | cloud_relay.py:79-96 | an empty registry is left alone; otherwise one attempt per client present at the start, and afterwards the registry is the old one minus exactly the clients whose send raised; the removals never raise (the same code is at websocket_relay.py:71-89) |
| Registry.ClientRegistry.RemoveEach | cloud_relay.py:94-96 | removing the clients collected as disconnected, one `remove` each, leaves exactly the old set minus them, and no removal raises |
| Registry.ClientRegistry.BroadcastEach | cloud_relay.py:158 | a run of broadcasts leaves exactly the clients that none of them failed to reach |
| Registry.SendLoopStep | cloud_relay.py:85-92 | trying one more client keeps the send loop's bookkeeping: attempts are distinct, they cover the clients tried so far, and the collected set is the failed ones among them |
| Registry.BroadcastShrinks | cloud_relay.py:94-96 | a broadcast never grows the registry, and leaves it unchanged when no send fails |
| Registry.SurvivorsStep | cloud_relay.py:94-96 | one more broadcast removes, from the survivors so far, exactly those whose send fails in it |
| Registry.SurvivorsOne | cloud_relay.py:94-96 | the survivors of a single broadcast are the registry minus its failed clients |
| Registry.SurvivorsCompose | cloud_relay.py:153-158 | consecutive runs of broadcasts compose |
| Registry.SurvivorsMember | cloud_relay.py:94-96 | a client survives a run of broadcasts exactly when none of its sends failed |
| Registry.SurvivorsSize | cloud_relay.py:94-96 | broadcasting never grows the registry |
| Retry.AfterSession | cloud_relay.py:176-183 | the bumped counter stays below 5; the wait is 10 exactly when the bump reached 5, and then the counter is 0; otherwise the wait is 5 and the counter is the bump |
| Retry.AfterAttempt | cloud_relay.py:145 | a successful connect zeroes the counter first, so an ended session is always followed by a wait of 5 and a counter of 1 |
| Retry.CountAfter | cloud_relay.py:136-183 | the counter at the loop head is always in 0..4 |
| Retry.Delays | cloud_relay.py:176-183 | one wait per attempt |
| Retry.FailureCycle | cloud_relay.py:176-183 | from 0, `n` failed connects leave the counter at `n mod 5`, and the wait after the `i`-th is 10 exactly when `i mod 5 == 4` |
| Retry.FirstBurst | cloud_relay.py:136-138 | the first five failures wait 5, 5, 5, 5, 10 and leave the counter at 0 |
| Retry.ConnectedThenFailures | cloud_relay.py:145 | after a successful session, four more failures complete the cycle: waits 5, 5, 5, 5, 10 and a counter of 0 |
| Retry.LongWaitResets | cloud_relay.py:177-180 | a wait is long exactly when the counter it leaves is 0 |
| Sink.PublishToPubsub | cloud_relay.py:65-77 | nothing happens unless both a publisher and a non-empty topic path exist; otherwise it publishes, or it logs the error when any step raises; no exception reaches the caller |
| Upstream.StopIndex | cloud_relay.py:167-169 | the position of the first `CLOSED` or `ERROR` frame, or the number of frames when there is none |
| Upstream.ActionsOfAppend | cloud_relay.py:153-166 | frames are handled one after another, independently of each other |
| Upstream.FrameBroadcasts | cloud_relay.py:154-158 | a text frame is broadcast raw exactly once; no other frame is broadcast |
| Upstream.ActionsOfBroadcasts | cloud_relay.py:153-158 | the messages a session broadcasts are exactly its text frames' data, in arrival order |
| Upstream.SubscribeOnceFirst | cloud_relay.py:148-153 | a session's first action is the subscribe request built from the pairs file read at that connect; no later action subscribes |
| Upstream.StopsAtFirstEnd | cloud_relay.py:167-169 | the session ends at the first `CLOSED` or `ERROR` frame: nothing after it is handled |
| Upstream.SessionContinues | cloud_relay.py:153-166 | after any frame that does not end the session (a text frame that parses or not, or a frame of another type) the loop goes on with the next frame |
| Upstream.LocalActionsOf | websocket_relay.py:110-118 | every action the local relay takes for a run of frames is a broadcast: no subscribe, forward, parse warning or wait |
| Upstream.LocalNeverForwards | websocket_relay.py:97-132 | the local relay's whole trace holds only subscribes, broadcasts and waits |
| Upstream.RunSleeps | cloud_relay.py:176-183 | the waits of a run are exactly the retry policy's delays for its outcomes |
| Upstream.HandleFrame | cloud_relay.py:154-165 | handling one frame: a broadcast of the raw text first, then in cloud mode a forward of the parsed message or a parse warning; the registry loses exactly the clients whose send failed |
| Upstream.RelaySession | cloud_relay.py:153-169 | the read loop produces the session's specified actions, numbers its broadcasts consecutively, and leaves exactly the clients none of them failed to reach |
| Upstream.RunAttempt | cloud_relay.py:141-183 | one pass of the `while True` loop: subscribe and run the session on a successful connect, then bump the counter and wait as the retry policy says |
| Upstream.Run | cloud_relay.py:134-183 | the supervising loop over any finite prefix of attempts: its trace is the specified one, the counter is below 5 at every loop head, and the registry keeps exactly the clients no broadcast failed to reach |
| CloudRelay.AdmissionFor | cloud_relay.py:102-104 | a connection is admitted exactly when fewer than `MAX_CONNECTIONS` clients are registered; otherwise it is closed with code 1008 and "Server at maximum capacity" |
| CloudRelay.AdmitKeepsCapacity | cloud_relay.py:102-107 | registering through the capacity check keeps the registry within the limit |
| CloudRelay.CloudWebSocketRelay.constructor | cloud_relay.py:42-51 | a new relay has no clients and is within its limit |
| CloudRelay.CloudWebSocketRelay.Admit | cloud_relay.py:101-107 | the capacity decision; an admitted socket is added and a rejected one is not; the limit is kept |
| CloudRelay.CloudWebSocketRelay.HandleClientConnection | cloud_relay.py:98-119 | as written: a rejected socket ends the handler with `KeyError` and leaves the registry unchanged; an admitted socket is cleaned up, raising `KeyError` exactly when a broadcast made during its drain already dropped it; the limit is kept |
| CloudRelay.CloudWebSocketRelay.HandleClientConnectionFixed | cloud_relay.py:98-119 | corrected: the handler always returns normally; a rejected socket never touches the registry, and an admitted one is gone afterwards |
| CloudRelay.CloudWebSocketRelay.DrainWhileBroadcasting | cloud_relay.py:111-112 | while a client's own messages are drained, concurrent broadcasts remove exactly their failed clients and keep the limit |
| CloudRelay.CloudWebSocketRelay.BroadcastToClients | cloud_relay.py:79-96 | the broadcast on this relay keeps the capacity invariant |
| CloudRelay.CloudWebSocketRelay.ConnectOkxAndRelay | cloud_relay.py:134-183 | the shared loop in cloud mode with this relay's sink; the capacity invariant is kept |
| CloudRelay.RejectionRaisesKeyError | cloud_relay.py:102-118 | at a full relay a new connection's handler ends with `KeyError`, whether or not closing raised, and the registry stays empty |
| CloudRelay.DroppedClientRaisesKeyError | cloud_relay.py:111-118 | a client dropped by a failed broadcast during its drain makes its handler end with `KeyError` |
| CloudRelay.RejectionReturnsFixed | cloud_relay.py:102-104 | with the corrected handler the same rejection returns normally |
| LocalRelay.HandleClientConnection | websocket_relay.py:52-69 | registers with no limit and removes in `finally`; the removal raises `KeyError` exactly when a concurrent broadcast already dropped the client |
| LocalRelay.ConnectOkxAndRelay | websocket_relay.py:91-132 | the shared loop in local mode: nothing is parsed or forwarded; the retry counter and the registry behave as in the cloud relay |
| LocalRelay.QuietClientCleansUp | websocket_relay.py:56-68 | a client whose sends succeed is registered and then removed, and its handler returns normally |
| Dashboard.CloseStep | app.js:209-215 | `onclose` schedules, and counts, a reconnect exactly while fewer than 5 were made; the counter never passes 5 |
| Dashboard.AtMostFiveReconnects | app.js:206-216 | from a counter `c <= 5`, `n` closes in a row schedule `min(n, 5 - c)` reconnects and leave the counter at `min(c + n, 5)` |
| Dashboard.Dashboard.constructor | app.js:10-11 | the page starts with no attempts and an empty log |
| Dashboard.Dashboard.AddMessage | app.js:150-155 | the entry goes in front, older entries move down one place, the oldest is dropped beyond 100, and the log stays within 100 |
| Dashboard.Dashboard.OnOpen | app.js:194-200 | the counter is reset to 0 and the connection is logged |
| Dashboard.Dashboard.OnMessage | app.js:202-204 | the data is logged as an information entry |
| Dashboard.Dashboard.OnClose | app.js:206-216 | the reconnect decision of `CloseStep`, with the attempt message `(n/5)` and a reconnect timer of 5000 ms, or the give-up message and no timer |
| Dashboard.Dashboard.ClearLog | app.js:224-227 | afterwards the log holds exactly one entry, the clear notice |
| Dashboard.SixClosesAfterOpen | app.js:194-216 | after an open, five closes schedule reconnects and the sixth does not |
| Dashboard.WithMessage | app.js:150-155 | the new entry first; the length grows by one below 100 and stays put at 100; the other entries shift down one place |
| Dashboard.LogHoldsNewest | app.js:150-155 | from an empty log, the log is the newest 100 messages added, newest first |
| Dashboard.AddAllBounded | app.js:150-155 | a log within 100 entries stays within 100 and holds `min(old + added, 100)` entries |
| Dashboard.ReadPairs | app.js:162-164 | every pair is non-empty and trimmed, and there are no more pairs than lines |
| Dashboard.ReadPairsOfLines | app.js:162-164 | for a text of newline-free lines, the pairs are exactly those lines trimmed, blank ones dropped, in order |
| Dashboard.ReadPairsMember | app.js:162-164 | a string is a pair exactly when it is non-empty and some line trims to it |
| Dashboard.RowId | app.js:30 | the row id is `pair-` followed by the pair with its first `/` made a `-`; a pair without `/` is kept as is |
| Dashboard.RowIdInjective | app.js:172 | pairs without `/` get distinct row ids |
| Dashboard.RowIdCollision | app.js:35 | for any base and quote without `/`, the pair `base/quote` and the pair `base-quote` share a row id, so their rows collide |
| Dashboard.RowIdFirstSlashOnly | app.js:30 | only the first `/` is replaced: `head/tail` with no `/` in `head` becomes `pair-head-tail`, whatever `tail` holds |
| Dashboard.ChangeClass | app.js:22-27 | `positive` exactly for a change above 0, `negative` exactly below 0, `neutral` otherwise (0 and NaN) |
| Dashboard.StatusText | app.js:77 | `Bullish` exactly for a change above 0, otherwise `Bearish` |
| Dashboard.StatusUpdate | app.js:76-80 | the status cell is updated only for a non-empty change field, with the status text and the change class |
| Dashboard.StatusAgreesWithClass | app.js:76-79 | Bullish exactly when the class is positive; neutral and negative changes are both Bearish |
| Dashboard.ZeroChangeIsBearish | app.js:76-79 | a change of `"0"` is shown as Bearish with the neutral class |

## Left out

- Network and server I/O: connecting upstream, serving clients, `send`, `close`, `send_json` and the ping settings. They are replaced by attempt, frame and failure oracles.
- asyncio scheduling. Interleavings are modelled only as broadcasts that happen while a client handler drains its socket.
  - Not modelled: a handler that changes the set during a send's `await` while `broadcast_to_clients` iterates over it, which raises `RuntimeError` in Python and ends the upstream session. No handler can run between the send loop and the removal loop, since there is no `await` between them.
- `asyncio.sleep`, `setTimeout`, `Date.now` and the connection timing. Waits are returned values.
- The 5-second wait for a Pub/Sub acknowledgement (cloud_relay.py:74): a timeout is one of the raises of the publish oracle.
- Only a finite prefix of the endless `while True` loop is modelled: `Upstream.Run` takes a finite sequence of attempts.
- Google Cloud Pub/Sub and Cloud Logging clients, and every log line. A publish is modelled by whether it raises.
- JSON encoding and decoding: parsing is a partial function given as a parameter, and `json.dumps` is part of the publish oracle.
- Configuration and entry points: `CONFIG` loading, `setup_cloud_logging`, `start_server`, `main` and `sys.exit`.
- The choice of pairs-file name (`filename or CONFIG['PAIRS_FILE']`, default `pairs.txt`). The file is given as its lines, or as unreadable.
- `readlines()` newline translation: lines are taken as given.
- Python exceptions raised by the drain loop of an admitted client are caught and only logged, so they are not distinguished.
- `app.js`: DOM updates (`updatePairRow` cells other than the status, `updateStatus`), `fetch` and its error message, `formatNumber`, `formatTimestamp`, the rendering of log entries by message kind, and `onerror`. `Number()` conversion is taken as given: the change is already a `JsNumber`.
- tests/test_cloud_relay.py is used only for the two-pair reading example. Its connection-limit test expects the raw set to cap itself, which the code never does. Its error-handling test expects an exception that the early return of `publish_to_pubsub` prevents.
- LocalRelay.HandleClientConnection: the local relay has the same raising cleanup as the cloud relay (websocket_relay.py:68). It is modelled as written, and its corrected form is the cloud relay's `HandleClientConnectionFixed` without the capacity check.

## Findings

| source | as written | input that shows it | evidently intended | confidence | as-written member | corrected member |
|---|---|---|---|---|---|---|
| cloud_relay.py:102-118 | a rejected connection returns from inside `try`, and `finally` then calls `connected_clients.remove` on a socket that was never added, so the handler ends with `KeyError`; if `websocket.close` raises, the `except` clause first raises `UnboundLocalError` on `client_address` | a connection that arrives when the registry already holds `MAX_CONNECTIONS` clients (a relay with limit 0 and any socket) | the socket is closed with 1008 and the handler returns normally, leaving the registry alone | not executed | CloudRelay.RejectionRaisesKeyError | CloudRelay.CloudWebSocketRelay.HandleClientConnectionFixed |
| cloud_relay.py:111-118 | an admitted client whose send fails is removed by `broadcast_to_clients`, and its handler's `finally` removes it again, which raises `KeyError` (the same at websocket_relay.py:68) | one admitted client and one broadcast during its drain whose send to it raises | cleanup is idempotent (`discard`), so the handler returns normally | not executed | CloudRelay.DroppedClientRaisesKeyError | CloudRelay.CloudWebSocketRelay.HandleClientConnectionFixed |
