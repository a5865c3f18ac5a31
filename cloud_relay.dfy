/**
 * `CloudWebSocketRelay`: the cloud relay's client side (admission with a
 * capacity limit, registration and cleanup) and its upstream loop, which is
 * the shared loop of `Upstream` in cloud mode. A connection handler is
 * modelled from accept to cleanup; while it drains its own socket, the
 * upstream task may broadcast, and those broadcasts are given as a
 * sequence of messages with the send oracle.
 */
module CloudRelay {
  import opened Wrappers
  import opened Registry
  import opened Sink
  import opened Upstream
  import opened Retry

  /** Close code for a policy violation (section 7.4.1 of RFC 6455). */
  const POLICY_VIOLATION: nat := 1008
  const CAPACITY_REASON: string := "Server at maximum capacity"
  /** `MAX_CONNECTIONS` when the environment does not set it. */
  const DEFAULT_MAX_CONNECTIONS: nat := 100

  /** The capacity decision for a new connection. */
  datatype Admission = Admitted | Rejected(code: nat, reason: string)

  /** Exceptions that can escape a handler. */
  datatype PyError = KeyError | UnboundLocalError

  /** How a handler coroutine ends. */
  datatype HandlerOutcome = Returned | Raised(error: PyError)

  /**
   * The capacity check: a connection is admitted exactly when fewer than
   * `maxConnections` clients are registered, and otherwise closed with the
   * policy-violation code and the capacity reason.
   */
  function AdmissionFor(size: nat, maxConnections: nat): (a: Admission)
    ensures a.Admitted? <==> size < maxConnections
    ensures a.Rejected? ==> a.code == POLICY_VIOLATION && a.reason == CAPACITY_REASON
  {
    if size >= maxConnections then Rejected(POLICY_VIOLATION, CAPACITY_REASON) else Admitted
  }

  /**
   * Registering through the capacity check never takes the registry over
   * the limit, whichever socket is registered.
   */
  lemma AdmitKeepsCapacity(clients: set<ClientId>, maxConnections: nat, ws: ClientId)
    requires |clients| <= maxConnections
    ensures AdmissionFor(|clients|, maxConnections).Admitted? ==> |clients + {ws}| <= maxConnections
    ensures AdmissionFor(|clients|, maxConnections).Rejected? ==> |clients| == maxConnections
  {
    if ws !in clients {
      assert |clients + {ws}| == |clients| + 1;
    } else {
      assert clients + {ws} == clients;
    }
  }

  class CloudWebSocketRelay {
    /** `connected_clients`. */
    const registry: ClientRegistry
    /** `CONFIG['MAX_CONNECTIONS']`. */
    const maxConnections: nat
    /** `publisher` and `topic_path`. */
    const sink: PubSub

    /** The registry never holds more clients than the limit. */
    ghost predicate Valid()
      reads this, registry
    {
      |registry.clients| <= maxConnections
    }

    /** `__init__`: no client is connected yet. */
    constructor (maxConnections: nat, sink: PubSub)
      ensures this.maxConnections == maxConnections && this.sink == sink
      ensures fresh(registry) && registry.clients == {}
      ensures Valid()
    {
      this.maxConnections := maxConnections;
      this.sink := sink;
      registry := new ClientRegistry();
    }

    /** The capacity check and registration at the start of `handle_client_connection`. */
    method Admit(ws: ClientId) returns (a: Admission)
      requires Valid()
      modifies registry
      ensures Valid()
      ensures a == AdmissionFor(|old(registry.clients)|, maxConnections)
      ensures a.Admitted? ==> registry.clients == old(registry.clients) + {ws}
      ensures a.Rejected? ==> registry.clients == old(registry.clients)
    {
      AdmitKeepsCapacity(registry.clients, maxConnections, ws);
      a := AdmissionFor(|registry.clients|, maxConnections);
      if a.Admitted? {
        registry.Add(ws);
      }
    }

    /**
     * `handle_client_connection`, as written. A rejected socket is closed
     * and the handler returns, but the `finally` clause still removes the
     * socket, which was never added, so `set.remove` raises `KeyError`. If
     * closing raises instead, the `except` clause names `client_address`,
     * not yet bound, and raises `UnboundLocalError`, which the `KeyError`
     * from `finally` then replaces. An admitted socket is registered and
     * drained; broadcasts made meanwhile (`interleaved`, numbered from 0)
     * may already drop it, and then the final removal raises `KeyError` too.
     */
    method HandleClientConnection(ws: ClientId, closeRaises: bool, interleaved: seq<string>,
                                  fails: (nat, ClientId) -> bool)
      returns (admission: Admission, outcome: HandlerOutcome)
      requires Valid()
      modifies registry
      ensures Valid()
      ensures admission == AdmissionFor(|old(registry.clients)|, maxConnections)
      ensures admission.Rejected? ==>
        registry.clients == old(registry.clients) - {ws} &&
        outcome == if ws !in old(registry.clients) then Raised(PyError.KeyError)
                   else if closeRaises then Raised(UnboundLocalError) else Returned
      ensures admission.Admitted? ==>
        var survivors := Survivors(old(registry.clients) + {ws}, fails, 0, |interleaved|);
        registry.clients == survivors - {ws} &&
        outcome == if ws in survivors then Returned else Raised(PyError.KeyError)
    {
      var pending: Option<PyError> := None;
      admission := Admit(ws);
      if admission.Rejected? {
        if closeRaises {
          pending := Some(UnboundLocalError);
        }
      } else {
        DrainWhileBroadcasting(interleaved, fails);
      }
      var r := registry.Remove(ws);
      if r.KeyError? {
        outcome := Raised(PyError.KeyError);
      } else if pending.Some? {
        outcome := Raised(pending.value);
      } else {
        outcome := Returned;
      }
    }

    /**
     * The handler as evidently intended: a rejected socket is closed and
     * never touches the registry, and cleanup uses `discard`, so the handler
     * returns normally on every path and its socket is gone afterwards.
     */
    method HandleClientConnectionFixed(ws: ClientId, interleaved: seq<string>, fails: (nat, ClientId) -> bool)
      returns (admission: Admission, outcome: HandlerOutcome)
      requires Valid()
      modifies registry
      ensures Valid()
      ensures outcome == Returned
      ensures admission == AdmissionFor(|old(registry.clients)|, maxConnections)
      ensures admission.Rejected? ==> registry.clients == old(registry.clients)
      ensures admission.Admitted? ==>
        registry.clients == Survivors(old(registry.clients) + {ws}, fails, 0, |interleaved|) - {ws}
    {
      admission := Admit(ws);
      if admission.Admitted? {
        DrainWhileBroadcasting(interleaved, fails);
        registry.Discard(ws);
      }
      outcome := Returned;
    }

    /**
     * The `async for` over a client's own messages, which are only logged;
     * at its awaits the upstream task runs the broadcasts of `interleaved`.
     */
    method DrainWhileBroadcasting(interleaved: seq<string>, fails: (nat, ClientId) -> bool)
      requires Valid()
      modifies registry
      ensures Valid()
      ensures registry.clients == Survivors(old(registry.clients), fails, 0, |interleaved|)
    {
      registry.BroadcastEach(interleaved, fails);
      SurvivorsSize(old(registry.clients), fails, 0, |interleaved|);
    }

    /** `broadcast_to_clients` on this relay's registry; it never grows the registry. */
    method BroadcastToClients(message: string, fails: ClientId -> bool)
      requires Valid()
      modifies registry
      ensures Valid()
      ensures registry.clients == old(registry.clients) - Failed(old(registry.clients), fails)
    {
      BroadcastShrinks(registry.clients, fails);
      var _ := registry.Broadcast(message, fails);
    }

    /**
     * `connect_okx_and_relay` of the cloud relay: the shared loop in cloud
     * mode with this relay's sink. It never grows the registry.
     */
    method ConnectOkxAndRelay(env: Environment, attempts: seq<Attempt>)
      returns (trace: seq<Action>, retryCount: nat)
      requires Valid()
      modifies registry
      ensures Valid()
      ensures trace == RunActions(Cloud(sink), env, attempts)
      ensures retryCount == CountAfter(Outcomes(attempts)) && retryCount < MAX_RETRIES
      ensures registry.clients == Survivors(old(registry.clients), env.sendFails, 0, |Broadcasts(trace)|)
    {
      trace, retryCount := Run(registry, Cloud(sink), env, attempts);
      SurvivorsSize(old(registry.clients), env.sendFails, 0, |Broadcasts(trace)|);
    }
  }

  /**
   * A connection arriving at a relay whose limit is already reached ends
   * with `KeyError` from the handler's cleanup, whether or not closing the
   * socket raised, and the registry is left as it was.
   */
  method RejectionRaisesKeyError(closeRaises: bool) returns (outcome: HandlerOutcome, size: nat)
    ensures outcome == Raised(PyError.KeyError)
    ensures size == 0
  {
    var relay := new CloudWebSocketRelay(0, PubSub(false, None));
    var admission;
    admission, outcome := relay.HandleClientConnection(7, closeRaises, [], (k: nat, c: ClientId) => false);
    size := |relay.registry.clients|;
  }

  /**
   * An admitted client whose send fails in a broadcast made while its
   * handler drains is removed by the broadcast, and the handler's own
   * cleanup then raises `KeyError`.
   */
  method DroppedClientRaisesKeyError() returns (outcome: HandlerOutcome, size: nat)
    ensures outcome == Raised(PyError.KeyError)
    ensures size == 0
  {
    var relay := new CloudWebSocketRelay(DEFAULT_MAX_CONNECTIONS, PubSub(false, None));
    var fails := (k: nat, c: ClientId) => true;
    var admission;
    admission, outcome := relay.HandleClientConnection(7, false, ["{}"], fails);
    assert fails(0, 7);
    size := |relay.registry.clients|;
  }

  /** With the corrected handler, the same rejected connection returns normally. */
  method RejectionReturnsFixed() returns (outcome: HandlerOutcome, size: nat)
    ensures outcome == Returned
    ensures size == 0
  {
    var relay := new CloudWebSocketRelay(0, PubSub(false, None));
    var admission;
    admission, outcome := relay.HandleClientConnectionFixed(7, [], (k: nat, c: ClientId) => false);
    size := |relay.registry.clients|;
  }
}
