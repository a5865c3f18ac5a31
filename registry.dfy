/**
 * The set of connected downstream clients (`connected_clients`) and the
 * operations both relays perform on it: `add`, `remove` (Python's
 * `set.remove`, which raises `KeyError` for an absent element) and the
 * broadcast loop with failure isolation.
 */
module Registry {

  /** The identity of one downstream websocket. */
  type ClientId = nat

  /** The outcome of `set.remove`: it either removed the element or raised `KeyError`. */
  datatype Removal = Removed | KeyError

  /** One send attempt made by a broadcast, and whether `client.send` raised. */
  datatype Send = Send(client: ClientId, message: string, raised: bool)

  /** The clients of `clients` whose send raises under the oracle `fails`. */
  function Failed(clients: set<ClientId>, fails: ClientId -> bool): (r: set<ClientId>)
    ensures r <= clients
    ensures forall c :: c in r <==> c in clients && fails(c)
  {
    set c | c in clients && fails(c)
  }

  /** The clients of `clients` that no broadcast numbered `lo` up to (excluding) `hi` failed to reach. */
  function Survivors(clients: set<ClientId>, fails: (nat, ClientId) -> bool, lo: nat, hi: nat): (r: set<ClientId>)
    ensures r <= clients
  {
    set c | c in clients && forall k :: lo <= k < hi ==> !fails(k, c)
  }

  /** The clients sent to, in attempt order. */
  function Targets(sends: seq<Send>): (r: seq<ClientId>)
    ensures |r| == |sends|
    ensures forall i :: 0 <= i < |sends| ==> r[i] == sends[i].client
  {
    if sends == [] then [] else [sends[0].client] + Targets(sends[1..])
  }

  /** Every send in `sends` carried `message` and raised exactly when `fails` says so. */
  predicate SentAs(sends: seq<Send>, message: string, fails: ClientId -> bool) {
    forall i :: 0 <= i < |sends| ==> sends[i].message == message && sends[i].raised == fails(sends[i].client)
  }

  /** Recording one more faithful send keeps the record faithful. */
  lemma SnocSentAs(sends: seq<Send>, message: string, fails: ClientId -> bool, c: ClientId)
    requires SentAs(sends, message, fails)
    ensures SentAs(sends + [Send(c, message, fails(c))], message, fails)
  {
  }

  /** Adding one client adds it to the failed set exactly when its send fails. */
  lemma FailedAdd(clients: set<ClientId>, fails: ClientId -> bool, c: ClientId)
    ensures Failed(clients + {c}, fails) == Failed(clients, fails) + (if fails(c) then {c} else {})
  {
  }

  /** No client occurs twice. */
  predicate Distinct(s: seq<ClientId>) {
    forall i, j :: 0 <= i < j < |s| ==> s[i] != s[j]
  }

  /** The set of clients occurring in `s`. */
  function Elements(s: seq<ClientId>): set<ClientId> {
    set c | c in s
  }

  /** Appending a send appends its client to the targets. */
  lemma SnocTargets(sends: seq<Send>, s: Send)
    ensures Targets(sends + [s]) == Targets(sends) + [s.client]
  {
    if sends != [] {
      assert (sends + [s])[1..] == sends[1..] + [s];
      SnocTargets(sends[1..], s);
    }
  }

  /** Appending an element adds it to the set of elements. */
  lemma SnocElements(s: seq<ClientId>, c: ClientId)
    ensures Elements(s + [c]) == Elements(s) + {c}
  {
  }

  /** Appending an element not yet present keeps a sequence duplicate-free. */
  lemma SnocDistinct(s: seq<ClientId>, c: ClientId)
    requires Distinct(s) && c !in Elements(s)
    ensures Distinct(s + [c])
  {
  }

  /** A duplicate-free sequence has as many elements as its set. */
  lemma {:induction false} DistinctLength(s: seq<ClientId>)
    requires Distinct(s)
    ensures |Elements(s)| == |s|
  {
    if s != [] {
      DistinctLength(s[1..]);
      assert Elements(s) == {s[0]} + Elements(s[1..]);
      assert s[0] !in Elements(s[1..]);
    }
  }

  /** Removing the failed clients never grows the registry. */
  lemma BroadcastShrinks(clients: set<ClientId>, fails: ClientId -> bool)
    ensures |clients - Failed(clients, fails)| <= |clients|
    ensures (forall c :: c in clients ==> !fails(c)) ==> clients - Failed(clients, fails) == clients
  {
    var f := Failed(clients, fails);
    assert clients == (clients - f) + f;
    assert |clients| == |clients - f| + |f|;
  }

  /**
   * One more broadcast, numbered `hi`, removes from the survivors of the
   * earlier ones exactly those whose send fails in it.
   */
  lemma SurvivorsStep(clients: set<ClientId>, fails: (nat, ClientId) -> bool, lo: nat, hi: nat)
    requires lo <= hi
    ensures Survivors(clients, fails, lo, hi + 1) ==
      Survivors(clients, fails, lo, hi) - set c | c in Survivors(clients, fails, lo, hi) && fails(hi, c)
  {
  }

  /** A single broadcast, numbered `k`, leaves exactly the clients whose send in it did not fail. */
  lemma SurvivorsOne(clients: set<ClientId>, fails: (nat, ClientId) -> bool, k: nat)
    ensures Survivors(clients, fails, k, k + 1) == clients - Failed(clients, (c: ClientId) => fails(k, c))
  {
  }

  /** Broadcasts `lo..mid` followed by broadcasts `mid..hi` leave the survivors of `lo..hi`. */
  lemma SurvivorsCompose(clients: set<ClientId>, fails: (nat, ClientId) -> bool, lo: nat, mid: nat, hi: nat)
    requires lo <= mid <= hi
    ensures Survivors(Survivors(clients, fails, lo, mid), fails, mid, hi) == Survivors(clients, fails, lo, hi)
  {
  }

  /** A client survives a run of broadcasts exactly when none of its sends failed. */
  lemma SurvivorsMember(clients: set<ClientId>, fails: (nat, ClientId) -> bool, lo: nat, hi: nat, c: ClientId)
    ensures c in Survivors(clients, fails, lo, hi) <==> c in clients && forall k :: lo <= k < hi ==> !fails(k, c)
  {
  }

  /** The survivors of any run of broadcasts are no more than the clients before it. */
  lemma SurvivorsSize(clients: set<ClientId>, fails: (nat, ClientId) -> bool, lo: nat, hi: nat)
    ensures |Survivors(clients, fails, lo, hi)| <= |clients|
  {
    var r := Survivors(clients, fails, lo, hi);
    assert clients == r + (clients - r);
  }

  /**
   * The state of the send loop: `pending` clients are yet to be tried, the
   * others were tried once each, in the order of `sends`, and `disconnected`
   * holds those whose send raised.
   */
  predicate SendLoop(targets: set<ClientId>, pending: set<ClientId>, sends: seq<Send>,
                     disconnected: set<ClientId>, message: string, fails: ClientId -> bool)
  {
    && pending <= targets
    && Distinct(Targets(sends))
    && Elements(Targets(sends)) == targets - pending
    && SentAs(sends, message, fails)
    && disconnected == Failed(targets - pending, fails)
  }

  /** Trying one more pending client keeps the send loop's state consistent. */
  lemma SendLoopStep(targets: set<ClientId>, pending: set<ClientId>, sends: seq<Send>,
                     disconnected: set<ClientId>, message: string, fails: ClientId -> bool, c: ClientId)
    requires SendLoop(targets, pending, sends, disconnected, message, fails)
    requires c in pending
    ensures SendLoop(targets, pending - {c}, sends + [Send(c, message, fails(c))],
                     if fails(c) then disconnected + {c} else disconnected, message, fails)
  {
    var order := Targets(sends);
    SnocTargets(sends, Send(c, message, fails(c)));
    SnocElements(order, c);
    SnocDistinct(order, c);
    SnocSentAs(sends, message, fails, c);
    FailedAdd(targets - pending, fails, c);
    assert targets - (pending - {c}) == (targets - pending) + {c};
  }

  class ClientRegistry {
    /** The connected clients. */
    var clients: set<ClientId>

    constructor ()
      ensures clients == {}
    {
      clients := {};
    }

    /** `connected_clients.add(c)`. */
    method Add(c: ClientId)
      modifies this
      ensures clients == old(clients) + {c}
    {
      clients := clients + {c};
    }

    /**
     * `connected_clients.remove(c)`: removes `c`, or raises `KeyError` when
     * it is not registered, in which case nothing changes.
     */
    method Remove(c: ClientId) returns (r: Removal)
      modifies this
      ensures r == (if c in old(clients) then Removed else KeyError)
      ensures clients == old(clients) - {c}
    {
      if c in clients {
        clients := clients - {c};
        r := Removed;
      } else {
        r := KeyError;
      }
    }

    /** `connected_clients.discard(c)`: like `Remove`, but never raises. */
    method Discard(c: ClientId)
      modifies this
      ensures clients == old(clients) - {c}
    {
      clients := clients - {c};
    }

    /**
     * The send loop of `broadcast_to_clients`: every client of `targets`
     * gets exactly one attempt of `message`, in some order, and a send that
     * raises does not stop the others; `disconnected` collects exactly the
     * clients whose send raised.
     */
    static method SendAll(targets: set<ClientId>, message: string, fails: ClientId -> bool)
      returns (sends: seq<Send>, disconnected: set<ClientId>)
      ensures Distinct(Targets(sends)) && Elements(Targets(sends)) == targets
      ensures |sends| == |targets|
      ensures SentAs(sends, message, fails)
      ensures disconnected == Failed(targets, fails)
    {
      sends := [];
      disconnected := {};
      var pending := targets;
      while pending != {}
        invariant SendLoop(targets, pending, sends, disconnected, message, fails)
        decreases pending
      {
        var c :| c in pending;
        var raised := fails(c);
        SendLoopStep(targets, pending, sends, disconnected, message, fails, c);
        sends := sends + [Send(c, message, raised)];
        if raised {
          disconnected := disconnected + {c};
        }
        pending := pending - {c};
      }
      assert targets - pending == targets;
      DistinctLength(Targets(sends));
    }

    /**
     * `broadcast_to_clients`: nothing happens on an empty registry. Otherwise
     * every registered client gets exactly one send attempt of `message`,
     * and afterwards exactly the clients whose send raised are removed. The
     * removals never raise `KeyError`, because every failed client is still
     * registered when it is removed.
     */
    method Broadcast(message: string, fails: ClientId -> bool) returns (sends: seq<Send>)
      modifies this
      ensures Distinct(Targets(sends)) && Elements(Targets(sends)) == old(clients)
      ensures |sends| == |old(clients)|
      ensures SentAs(sends, message, fails)
      ensures clients == old(clients) - Failed(old(clients), fails)
    {
      if clients == {} {
        sends := [];
        assert Elements(Targets(sends)) == {};
        return;
      }
      var disconnected;
      sends, disconnected := SendAll(clients, message, fails);
      RemoveEach(disconnected);
    }

    /**
     * The removal loop of `broadcast_to_clients`: every client of `gone` is
     * removed with `remove`, and none of these removals raises, because each
     * client is still registered when its turn comes.
     */
    method RemoveEach(gone: set<ClientId>)
      requires gone <= clients
      modifies this
      ensures clients == old(clients) - gone
    {
      var toRemove := gone;
      while toRemove != {}
        invariant toRemove <= gone
        invariant clients == old(clients) - (gone - toRemove)
        decreases toRemove
      {
        var c :| c in toRemove;
        var r := Remove(c);
        assert r == Removed;
        toRemove := toRemove - {c};
      }
    }

    /**
     * The broadcasts of `messages`, one after another, broadcast number `k`
     * failing for client `c` when `fails(k, c)`: the registry keeps exactly
     * the clients none of them failed to reach.
     */
    method BroadcastEach(messages: seq<string>, fails: (nat, ClientId) -> bool)
      modifies this
      ensures clients == Survivors(old(clients), fails, 0, |messages|)
    {
      var j := 0;
      while j < |messages|
        invariant j <= |messages|
        invariant clients == Survivors(old(clients), fails, 0, j)
      {
        var _ := Broadcast(messages[j], (c: ClientId) => fails(j, c));
        SurvivorsOne(Survivors(old(clients), fails, 0, j), fails, j);
        SurvivorsCompose(old(clients), fails, 0, j, j + 1);
        j := j + 1;
      }
    }
  }
}
