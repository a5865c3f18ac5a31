/**
 * The local relay: the same client registry, held in the module-global
 * `connected_clients`, with no capacity limit, and the shared upstream loop
 * in local mode (broadcast only, no parsing, no sink).
 */
module LocalRelay {
  import opened Registry
  import opened Upstream
  import opened Retry

  /**
   * `handle_client_connection`: registers the socket unconditionally,
   * drains it (its messages are only logged, and every way the drain ends
   * is caught), and removes it in `finally`. Broadcasts made by the upstream
   * task meanwhile (`interleaved`, numbered from 0) may already have dropped
   * it; the handler then ends with the `KeyError` of the removal, which is
   * what `cleanup` reports.
   */
  method HandleClientConnection(connected: ClientRegistry, ws: ClientId, interleaved: seq<string>,
                                fails: (nat, ClientId) -> bool)
    returns (cleanup: Removal)
    modifies connected
    ensures var survivors := Survivors(old(connected.clients) + {ws}, fails, 0, |interleaved|);
      connected.clients == survivors - {ws} &&
      cleanup == if ws in survivors then Removed else KeyError
  {
    connected.Add(ws);
    connected.BroadcastEach(interleaved, fails);
    cleanup := connected.Remove(ws);
  }

  /**
   * `connect_okx_and_relay` of the local relay: the shared loop in local
   * mode. Its trace never forwards anything or logs a parse failure.
   */
  method ConnectOkxAndRelay(connected: ClientRegistry, env: Environment, attempts: seq<Attempt>)
    returns (trace: seq<Action>, retryCount: nat)
    modifies connected
    ensures trace == RunActions(Local, env, attempts)
    ensures BroadcastOnly(trace)
    ensures retryCount == CountAfter(Outcomes(attempts)) && retryCount < MAX_RETRIES
    ensures connected.clients == Survivors(old(connected.clients), env.sendFails, 0, |Broadcasts(trace)|)
  {
    trace, retryCount := Run(connected, Local, env, attempts);
    LocalNeverForwards(env, attempts);
  }

  /**
   * A client registered while the registry is empty, whose only broadcast
   * succeeds, leaves the registry empty again and its handler returns
   * normally.
   */
  method QuietClientCleansUp() returns (cleanup: Removal, size: nat)
    ensures cleanup == Removed
    ensures size == 0
  {
    var connected := new ClientRegistry();
    var fails := (k: nat, c: ClientId) => false;
    cleanup := HandleClientConnection(connected, 3, ["{}"], fails);
    size := |connected.clients|;
  }
}
