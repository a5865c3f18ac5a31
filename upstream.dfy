/**
 * The upstream side shared by both relays: the session read loop (`async
 * for msg in ws`) and the supervising `while True` loop of
 * `connect_okx_and_relay`. The network is replaced by a finite sequence of
 * connection attempts, each either a failed connect or an opened session
 * with the frames it delivers; JSON parsing, Pub/Sub and client sends are
 * oracles. Everything the loop does besides updating the registry is
 * recorded as a trace of actions. The two relays differ only in what
 * follows the broadcast of a text frame (`Mode`).
 */
module Upstream {
  import opened Wrappers
  import opened Registry
  import opened Subscription
  import opened Sink
  import opened Retry

  /** A websocket message as `aiohttp` types it. */
  datatype Frame = Text(data: string) | Closed | Error | Other

  /** One pass of the supervising loop: the connect raised, or a session opened. */
  datatype Attempt =
    | ConnectFailed
    | Connected(pairsFile: Option<seq<string>>, frames: seq<Frame>)

  /** The local relay only broadcasts; the cloud relay also parses and forwards to its sink. */
  datatype Mode = Local | Cloud(sink: PubSub)

  /**
   * The outcomes of calls the model cannot see: `json.loads`, the Pub/Sub
   * publish, and `client.send` in broadcast number `k` (counting from the
   * start of the run).
   */
  datatype Environment = Environment(
    parse: string -> Option<Json>,
    publishRaises: Json -> bool,
    sendFails: (nat, ClientId) -> bool)

  /** What the loop visibly does, in order. */
  datatype Action =
    | Subscribe(request: SubscribeRequest)
    | Broadcast(raw: string)
    | Forward(message: Json, result: PublishResult)
    | ParseWarning(raw: string)
    | Sleep(seconds: nat)

  /** A `CLOSED` or `ERROR` message ends the session. */
  predicate EndsSession(f: Frame) {
    f.Closed? || f.Error?
  }

  /** The position of the first frame that ends the session, or the number of frames. */
  function StopIndex(frames: seq<Frame>): (k: nat)
    ensures k <= |frames|
    ensures forall i :: 0 <= i < k ==> !EndsSession(frames[i])
    ensures k < |frames| ==> EndsSession(frames[k])
  {
    if frames == [] || EndsSession(frames[0]) then 0 else 1 + StopIndex(frames[1..])
  }

  /**
   * The handling of one frame that does not end the session: a text frame
   * is broadcast raw, and then, by the cloud relay only, parsed and either
   * forwarded or logged as unparsable; any other frame is ignored.
   */
  function FrameActions(mode: Mode, env: Environment, f: Frame): seq<Action>
  {
    match f
    case Text(s) =>
      [Broadcast(s)] +
      (match mode
       case Local => []
       case Cloud(sink) =>
         match env.parse(s)
         case Some(v) => [Forward(v, PublishToPubsub(sink, v, env.publishRaises(v)))]
         case None => [ParseWarning(s)])
    case _ => []
  }

  /** The actions for handling every one of `frames`, in order. */
  function ActionsOf(mode: Mode, env: Environment, frames: seq<Frame>): seq<Action>
  {
    if frames == [] then [] else FrameActions(mode, env, frames[0]) + ActionsOf(mode, env, frames[1..])
  }

  /** The actions of one session: the frames up to the first one that ends it. */
  function SessionActions(mode: Mode, env: Environment, frames: seq<Frame>): seq<Action>
  {
    ActionsOf(mode, env, frames[..StopIndex(frames)])
  }

  /** A session subscribes first, reading the pairs file afresh, and then reads its frames. */
  function AttemptActions(mode: Mode, env: Environment, a: Attempt): seq<Action>
  {
    match a
    case ConnectFailed => []
    case Connected(file, frames) => [Subscribe(SubscribeOkx(file))] + SessionActions(mode, env, frames)
  }

  /** Which attempts opened a session. */
  function Outcomes(attempts: seq<Attempt>): (s: seq<bool>)
    ensures |s| == |attempts|
    ensures forall i :: 0 <= i < |attempts| ==> s[i] == attempts[i].Connected?
  {
    seq(|attempts|, i requires 0 <= i < |attempts| => attempts[i].Connected?)
  }

  /** The trace of the supervising loop: each attempt's actions, then its wait. */
  function RunActions(mode: Mode, env: Environment, attempts: seq<Attempt>): seq<Action>
  {
    if attempts == [] then []
    else
      var prefix := attempts[..|attempts| - 1];
      var last := attempts[|attempts| - 1];
      RunActions(mode, env, prefix) + AttemptActions(mode, env, last) +
      [Sleep(AfterAttempt(CountAfter(Outcomes(prefix)), last.Connected?).delay)]
  }

  /** The messages broadcast in a trace, in order. */
  function Broadcasts(actions: seq<Action>): seq<string>
  {
    if actions == [] then []
    else if actions[0].Broadcast? then [actions[0].raw] + Broadcasts(actions[1..])
    else Broadcasts(actions[1..])
  }

  /** The waits in a trace, in order. */
  function Sleeps(actions: seq<Action>): seq<nat>
  {
    if actions == [] then []
    else if actions[0].Sleep? then [actions[0].seconds] + Sleeps(actions[1..])
    else Sleeps(actions[1..])
  }

  /** The data of the text frames among `frames`, in order. */
  function Texts(frames: seq<Frame>): seq<string>
  {
    if frames == [] then []
    else if frames[0].Text? then [frames[0].data] + Texts(frames[1..])
    else Texts(frames[1..])
  }

  lemma {:induction false} BroadcastsAppend(a: seq<Action>, b: seq<Action>)
    ensures Broadcasts(a + b) == Broadcasts(a) + Broadcasts(b)
  {
    if a == [] {
      assert a + b == b;
    } else {
      assert (a + b)[1..] == a[1..] + b;
      BroadcastsAppend(a[1..], b);
    }
  }

  lemma {:induction false} SleepsAppend(a: seq<Action>, b: seq<Action>)
    ensures Sleeps(a + b) == Sleeps(a) + Sleeps(b)
  {
    if a == [] {
      assert a + b == b;
    } else {
      assert (a + b)[1..] == a[1..] + b;
      SleepsAppend(a[1..], b);
    }
  }

  /** Handling frames one after another is handling their concatenation. */
  lemma {:induction false} ActionsOfAppend(mode: Mode, env: Environment, a: seq<Frame>, b: seq<Frame>)
    ensures ActionsOf(mode, env, a + b) == ActionsOf(mode, env, a) + ActionsOf(mode, env, b)
  {
    if a != [] {
      assert (a + b)[1..] == a[1..] + b;
      ActionsOfAppend(mode, env, a[1..], b);
    } else {
      assert a + b == b;
    }
  }

  /** Handling one more frame appends that frame's actions. */
  lemma ActionsOfSnoc(mode: Mode, env: Environment, frames: seq<Frame>, f: Frame)
    ensures ActionsOf(mode, env, frames + [f]) == ActionsOf(mode, env, frames) + FrameActions(mode, env, f)
  {
    ActionsOfAppend(mode, env, frames, [f]);
    assert [f][1..] == [];
  }

  /** The messages broadcast in a session are exactly its text frames, in arrival order. */
  lemma {:induction false} ActionsOfBroadcasts(mode: Mode, env: Environment, frames: seq<Frame>)
    ensures Broadcasts(ActionsOf(mode, env, frames)) == Texts(frames)
  {
    if frames != [] {
      ActionsOfBroadcasts(mode, env, frames[1..]);
      BroadcastsAppend(FrameActions(mode, env, frames[0]), ActionsOf(mode, env, frames[1..]));
      FrameBroadcasts(mode, env, frames[0]);
    }
  }

  /** Handling one frame broadcasts its data when it is a text frame, and nothing otherwise. */
  lemma FrameBroadcasts(mode: Mode, env: Environment, f: Frame)
    ensures Broadcasts(FrameActions(mode, env, f)) == if f.Text? then [f.data] else []
  {
    var acts := FrameActions(mode, env, f);
    if f.Text? {
      assert Broadcasts(acts[1..]) == [] by {
        if |acts| > 1 {
          assert acts[1..][1..] == [];
        }
      }
    }
  }

  /** Frame handling never subscribes and never waits. */
  predicate Quiet(actions: seq<Action>) {
    forall i :: 0 <= i < |actions| ==> !actions[i].Subscribe? && !actions[i].Sleep?
  }

  lemma {:induction false} ActionsOfQuiet(mode: Mode, env: Environment, frames: seq<Frame>)
    ensures Quiet(ActionsOf(mode, env, frames))
  {
    if frames != [] {
      ActionsOfQuiet(mode, env, frames[1..]);
    }
  }

  lemma {:induction false} QuietNoSleeps(actions: seq<Action>)
    requires Quiet(actions)
    ensures Sleeps(actions) == []
  {
    if actions != [] {
      QuietNoSleeps(actions[1..]);
    }
  }

  /**
   * A session's first action is its one subscribe request, built from the
   * pairs file as read at that connect; nothing after it subscribes again.
   */
  lemma SubscribeOnceFirst(mode: Mode, env: Environment, file: Option<seq<string>>, frames: seq<Frame>)
    ensures var acts := AttemptActions(mode, env, Connected(file, frames));
      acts[0] == Subscribe(SubscribeOkx(file)) &&
      forall i :: 0 < i < |acts| ==> !acts[i].Subscribe?
  {
    var session := SessionActions(mode, env, frames);
    ActionsOfQuiet(mode, env, frames[..StopIndex(frames)]);
    var acts := AttemptActions(mode, env, Connected(file, frames));
    forall i | 0 < i < |acts| ensures !acts[i].Subscribe? {
      assert acts[i] == session[i - 1];
    }
  }

  /** The session ends at the first `CLOSED` or `ERROR` frame: nothing after it is handled. */
  lemma StopsAtFirstEnd(mode: Mode, env: Environment, pre: seq<Frame>, f: Frame, post: seq<Frame>)
    requires forall i :: 0 <= i < |pre| ==> !EndsSession(pre[i])
    requires EndsSession(f)
    ensures SessionActions(mode, env, pre + [f] + post) == ActionsOf(mode, env, pre)
  {
    var frames := pre + [f] + post;
    assert frames[|pre|] == f;
    var k := StopIndex(frames);
    assert forall i :: 0 <= i < |pre| ==> frames[i] == pre[i];
    assert k == |pre|;
    assert frames[..k] == pre;
  }

  /**
   * A frame that does not end the session (a text frame, whether or not it
   * parses, or any other message type) is handled and the session goes on
   * with the following frames.
   */
  lemma SessionContinues(mode: Mode, env: Environment, pre: seq<Frame>, f: Frame, post: seq<Frame>)
    requires forall i :: 0 <= i < |pre| ==> !EndsSession(pre[i])
    requires !EndsSession(f)
    ensures SessionActions(mode, env, pre + [f] + post) ==
      ActionsOf(mode, env, pre) + FrameActions(mode, env, f) + SessionActions(mode, env, post)
  {
    var head := pre + [f];
    var frames := head + post;
    var k := StopIndex(post);
    StopIndexAfter(head, post);
    assert frames[..StopIndex(frames)] == head + post[..k];
    ActionsOfAppend(mode, env, head, post[..k]);
    ActionsOfSnoc(mode, env, pre, f);
  }

  /** Frames that cannot end the session shift the stop position by their number. */
  lemma {:induction false} StopIndexAfter(head: seq<Frame>, post: seq<Frame>)
    requires forall i :: 0 <= i < |head| ==> !EndsSession(head[i])
    ensures StopIndex(head + post) == |head| + StopIndex(post)
  {
    var frames := head + post;
    var k := StopIndex(frames);
    var j := StopIndex(post);
    assert forall i :: 0 <= i < |head| ==> frames[i] == head[i];
    assert forall i :: |head| <= i < |frames| ==> frames[i] == post[i - |head|];
    if j < |post| {
      assert frames[|head| + j] == post[j];
    }
  }

  /** The local relay never parses and never forwards: its trace holds only subscribes, broadcasts and waits. */
  predicate BroadcastOnly(actions: seq<Action>) {
    forall i :: 0 <= i < |actions| ==> actions[i].Subscribe? || actions[i].Broadcast? || actions[i].Sleep?
  }

  /** Within a session the local relay only broadcasts: every action its frames cause is a broadcast. */
  lemma {:induction false} LocalActionsOf(env: Environment, frames: seq<Frame>)
    ensures forall i :: 0 <= i < |ActionsOf(Local, env, frames)| ==> ActionsOf(Local, env, frames)[i].Broadcast?
    ensures BroadcastOnly(ActionsOf(Local, env, frames))
  {
    ActionsOfQuiet(Local, env, frames);
    if frames != [] {
      LocalActionsOf(env, frames[1..]);
    }
  }

  lemma {:induction false} LocalNeverForwards(env: Environment, attempts: seq<Attempt>)
    ensures BroadcastOnly(RunActions(Local, env, attempts))
  {
    if attempts != [] {
      var last := attempts[|attempts| - 1];
      LocalNeverForwards(env, attempts[..|attempts| - 1]);
      if last.Connected? {
        LocalActionsOf(env, last.frames[..StopIndex(last.frames)]);
      }
    }
  }

  /** The waits of a run are exactly the retry policy's delays for its outcomes. */
  lemma {:induction false} RunSleeps(mode: Mode, env: Environment, attempts: seq<Attempt>)
    ensures Sleeps(RunActions(mode, env, attempts)) == Delays(Outcomes(attempts))
  {
    if attempts != [] {
      var prefix := attempts[..|attempts| - 1];
      var last := attempts[|attempts| - 1];
      var acts := AttemptActions(mode, env, last);
      var delay := AfterAttempt(CountAfter(Outcomes(prefix)), last.Connected?).delay;
      RunSleeps(mode, env, prefix);
      SleepsAppend(RunActions(mode, env, prefix) + acts, [Sleep(delay)]);
      SleepsAppend(RunActions(mode, env, prefix), acts);
      AttemptNoSleeps(mode, env, last);
      assert Outcomes(attempts)[..|attempts| - 1] == Outcomes(prefix);
      assert Delays(Outcomes(attempts)) == Delays(Outcomes(prefix)) + [delay];
    }
  }

  /** An attempt itself never waits: the wait follows it. */
  lemma AttemptNoSleeps(mode: Mode, env: Environment, a: Attempt)
    ensures Sleeps(AttemptActions(mode, env, a)) == []
  {
    if a.Connected? {
      var acts := AttemptActions(mode, env, a);
      ActionsOfQuiet(mode, env, a.frames[..StopIndex(a.frames)]);
      QuietNoSleeps(SessionActions(mode, env, a.frames));
      assert acts[1..] == SessionActions(mode, env, a.frames);
    }
  }

  /**
   * The body of the read loop for one frame that does not end the session:
   * a text frame is broadcast raw as broadcast number `k` and then, for the
   * cloud relay, parsed and forwarded or logged; other frames are ignored.
   */
  method HandleFrame(registry: ClientRegistry, mode: Mode, env: Environment, f: Frame, k: nat)
    returns (actions: seq<Action>, next: nat)
    modifies registry
    ensures actions == FrameActions(mode, env, f)
    ensures next == k + |Broadcasts(actions)|
    ensures registry.clients == Survivors(old(registry.clients), env.sendFails, k, next)
  {
    FrameBroadcasts(mode, env, f);
    actions := [];
    next := k;
    if f.Text? {
      var _ := registry.Broadcast(f.data, (c: ClientId) => env.sendFails(k, c));
      SurvivorsOne(old(registry.clients), env.sendFails, k);
      actions := [Broadcast(f.data)];
      next := k + 1;
      if mode.Cloud? {
        match env.parse(f.data) {
          case Some(v) =>
            actions := actions + [Forward(v, PublishToPubsub(mode.sink, v, env.publishRaises(v)))];
          case None =>
            actions := actions + [ParseWarning(f.data)];
        }
      }
    }
  }

  /**
   * The state of a session's read loop after its first `j` frames, none of
   * which ended it: broadcasts were numbered from `k` up to `next`.
   */
  predicate SessionLoop(mode: Mode, env: Environment, frames: seq<Frame>, j: nat, k: nat,
                        actions: seq<Action>, next: nat, start: set<ClientId>, clients: set<ClientId>)
  {
    && j <= |frames|
    && (forall i :: 0 <= i < j ==> !EndsSession(frames[i]))
    && actions == ActionsOf(mode, env, frames[..j])
    && next == k + |Broadcasts(actions)|
    && k <= next
    && clients == Survivors(start, env.sendFails, k, next)
  }

  /** Handling one more frame that does not end the session keeps the read loop's state. */
  lemma SessionLoopStep(mode: Mode, env: Environment, frames: seq<Frame>, j: nat, k: nat,
                        actions: seq<Action>, next: nat, start: set<ClientId>, clients: set<ClientId>,
                        acts: seq<Action>, next': nat, clients': set<ClientId>)
    requires SessionLoop(mode, env, frames, j, k, actions, next, start, clients)
    requires j < |frames| && !EndsSession(frames[j])
    requires acts == FrameActions(mode, env, frames[j])
    requires next' == next + |Broadcasts(acts)|
    requires clients' == Survivors(clients, env.sendFails, next, next')
    ensures SessionLoop(mode, env, frames, j + 1, k, actions + acts, next', start, clients')
  {
    BroadcastsAppend(actions, acts);
    SurvivorsCompose(start, env.sendFails, k, next, next');
    assert frames[..j + 1] == frames[..j] + [frames[j]];
    ActionsOfSnoc(mode, env, frames[..j], frames[j]);
  }

  /**
   * The read loop of one session: each frame is handled in arrival order
   * and the loop stops at the first `CLOSED` or `ERROR` frame. Broadcasts
   * are numbered from `k`, and the registry loses exactly the clients whose
   * send failed in one of them.
   */
  method RelaySession(registry: ClientRegistry, mode: Mode, env: Environment, frames: seq<Frame>, k: nat)
    returns (actions: seq<Action>, next: nat)
    modifies registry
    ensures actions == SessionActions(mode, env, frames)
    ensures next == k + |Broadcasts(actions)|
    ensures registry.clients == Survivors(old(registry.clients), env.sendFails, k, next)
  {
    actions := [];
    next := k;
    var j := 0;
    while j < |frames|
      invariant SessionLoop(mode, env, frames, j, k, actions, next, old(registry.clients), registry.clients)
    {
      var f := frames[j];
      if EndsSession(f) {
        break;
      }
      ghost var clients := registry.clients;
      var acts, next' := HandleFrame(registry, mode, env, f, next);
      SessionLoopStep(mode, env, frames, j, k, actions, next, old(registry.clients), clients,
                      acts, next', registry.clients);
      actions := actions + acts;
      next := next';
      j := j + 1;
    }
    assert frames[..StopIndex(frames)] == frames[..j];
  }

  /**
   * One pass of the supervising loop from counter `retryCount`: a connect
   * that succeeds zeroes the counter, sends the subscribe request first and
   * runs the session; then the counter is bumped and the loop waits, long
   * when the counter reached the limit, which also resets it.
   */
  method RunAttempt(registry: ClientRegistry, mode: Mode, env: Environment, attempt: Attempt,
                    retryCount: nat, k: nat)
    returns (actions: seq<Action>, count: nat, next: nat)
    modifies registry
    ensures var b := AfterAttempt(retryCount, attempt.Connected?);
      actions == AttemptActions(mode, env, attempt) + [Sleep(b.delay)] && count == b.count
    ensures next == k + |Broadcasts(actions)|
    ensures registry.clients == Survivors(old(registry.clients), env.sendFails, k, next)
  {
    actions := [];
    count := retryCount;
    next := k;
    if attempt.Connected? {
      count := 0;
      var request := SubscribeOkx(attempt.pairsFile);
      var session;
      session, next := RelaySession(registry, mode, env, attempt.frames, k);
      actions := [Subscribe(request)] + session;
      BroadcastsAppend([Subscribe(request)], session);
    }
    count := count + 1;
    var delay: nat;
    if count >= MAX_RETRIES {
      delay := RETRY_DELAY * 2;
      count := 0;
    } else {
      delay := RETRY_DELAY;
    }
    BroadcastsAppend(actions, [Sleep(delay)]);
    actions := actions + [Sleep(delay)];
  }

  /** The state of the supervising loop after its first `i` attempts, with `k` broadcasts made. */
  predicate RunLoop(mode: Mode, env: Environment, attempts: seq<Attempt>, i: nat, trace: seq<Action>,
                    retryCount: nat, k: nat, start: set<ClientId>, clients: set<ClientId>)
  {
    && i <= |attempts|
    && trace == RunActions(mode, env, attempts[..i])
    && retryCount == CountAfter(Outcomes(attempts[..i]))
    && k == |Broadcasts(trace)|
    && clients == Survivors(start, env.sendFails, 0, k)
  }

  /** One more pass of the supervising loop keeps its state. */
  lemma RunLoopStep(mode: Mode, env: Environment, attempts: seq<Attempt>, i: nat, trace: seq<Action>,
                    retryCount: nat, k: nat, start: set<ClientId>, clients: set<ClientId>,
                    acts: seq<Action>, count: nat, next: nat, clients': set<ClientId>)
    requires RunLoop(mode, env, attempts, i, trace, retryCount, k, start, clients)
    requires i < |attempts|
    requires var b := AfterAttempt(retryCount, attempts[i].Connected?);
      acts == AttemptActions(mode, env, attempts[i]) + [Sleep(b.delay)] && count == b.count
    requires next == k + |Broadcasts(acts)|
    requires clients' == Survivors(clients, env.sendFails, k, next)
    ensures RunLoop(mode, env, attempts, i + 1, trace + acts, count, next, start, clients')
  {
    SurvivorsCompose(start, env.sendFails, 0, k, next);
    BroadcastsAppend(trace, acts);
    RunActionsSnoc(mode, env, attempts, i);
  }

  /** The trace and the counter after one more attempt, unfolded once. */
  lemma RunActionsSnoc(mode: Mode, env: Environment, attempts: seq<Attempt>, i: nat)
    requires i < |attempts|
    ensures var b := AfterAttempt(CountAfter(Outcomes(attempts[..i])), attempts[i].Connected?);
      && RunActions(mode, env, attempts[..i + 1]) ==
         RunActions(mode, env, attempts[..i]) + AttemptActions(mode, env, attempts[i]) + [Sleep(b.delay)]
      && CountAfter(Outcomes(attempts[..i + 1])) == b.count
  {
    var pre := attempts[..i + 1];
    assert pre[..i] == attempts[..i];
    assert pre[i] == attempts[i];
    assert Outcomes(pre)[..i] == Outcomes(attempts[..i]);
    assert Outcomes(pre)[i] == attempts[i].Connected?;
  }

  /**
   * `connect_okx_and_relay` over a finite prefix of its attempts. The counter
   * stays below the limit at the loop head, the trace is `RunActions`, and
   * the registry keeps exactly the clients no broadcast failed to reach.
   */
  method Run(registry: ClientRegistry, mode: Mode, env: Environment, attempts: seq<Attempt>)
    returns (trace: seq<Action>, retryCount: nat)
    modifies registry
    ensures trace == RunActions(mode, env, attempts)
    ensures retryCount == CountAfter(Outcomes(attempts)) && retryCount < MAX_RETRIES
    ensures registry.clients == Survivors(old(registry.clients), env.sendFails, 0, |Broadcasts(trace)|)
  {
    trace := [];
    retryCount := 0;
    var k := 0;
    var i := 0;
    while i < |attempts|
      invariant RunLoop(mode, env, attempts, i, trace, retryCount, k, old(registry.clients), registry.clients)
    {
      ghost var clients := registry.clients;
      var acts, count, next := RunAttempt(registry, mode, env, attempts[i], retryCount, k);
      RunLoopStep(mode, env, attempts, i, trace, retryCount, k, old(registry.clients), clients,
                  acts, count, next, registry.clients);
      trace := trace + acts;
      retryCount := count;
      k := next;
      i := i + 1;
    }
    assert attempts[..i] == attempts;
  }
}
