/** The four streaming subscriptions to the proxy core (traffic, memory, logs,
    connections). The source keeps four hand-written copies of the same state and
    handlers; here they are one `StreamSession` class with a `topic` field. The
    socket, the timers and the window that receives events are abstract state:
    a socket is the index of its entry in `sockets`, a scheduled reconnect is an
    entry of `pending`, and an event sent to the main window is appended to
    `emitted`. */
module MihomoStreams {
  import opened Json

  datatype Topic = Traffic | Memory | Logs | Connections

  /** Retry budget every topic starts with and returns to after a message. */
  const InitialRetry: int := 10
  /** Ceiling of the pre-jitter delay, in milliseconds. */
  const MaxDelay: int := 30000
  /** Floor of the returned delay, and the delay of attempt 0, in milliseconds. */
  const MinDelay: int := 1000

  // ---------------------------------------------------------------------------
  // Backoff rule (getBackoffDelay)
  // ---------------------------------------------------------------------------

  function Pow2(n: nat): (r: nat)
    ensures r >= 1
  {
    if n == 0 then 1 else 2 * Pow2(n - 1)
  }

  lemma {:induction false} Pow2Monotone(m: nat, n: nat)
    requires m <= n
    ensures Pow2(m) <= Pow2(n)
  {
    if m < n {
      Pow2Monotone(m, n - 1);
    }
  }

  /** The delay before jitter: 1000 * 2^retryCount milliseconds, capped at MaxDelay. */
  function BaseDelay(retryCount: nat): (d: int)
    ensures MinDelay <= d <= MaxDelay
  {
    if 1000 * Pow2(retryCount) < MaxDelay then 1000 * Pow2(retryCount) else MaxDelay
  }

  /** The base delay never shrinks as the attempt counter grows. */
  lemma BaseDelayMonotone(m: nat, n: nat)
    requires m <= n
    ensures BaseDelay(m) <= BaseDelay(n)
  {
    Pow2Monotone(m, n);
  }

  /** From the fifth attempt on, the base delay sits at the ceiling. */
  lemma BaseDelayCapped(n: nat)
    requires n >= 5
    ensures BaseDelay(n) == MaxDelay
  {
    Pow2Monotone(5, n);
    assert Pow2(5) == 32;
  }

  /** Below the ceiling, every attempt doubles the base delay. */
  lemma BaseDelayDoubles(n: nat)
    requires n < 4
    ensures BaseDelay(n + 1) == 2 * BaseDelay(n)
  {
    Pow2Monotone(n, 3);
    assert Pow2(3) == 8;
  }

  /** `Math.random` drawn jitter: within 20% of the base delay either way. */
  predicate JitterFits(retryCount: nat, jitter: int) {
    -BaseDelay(retryCount) <= 5 * jitter <= BaseDelay(retryCount)
  }

  /** getBackoffDelay with its random jitter given as a parameter. */
  function BackoffDelay(retryCount: nat, jitter: int): (d: int)
    requires JitterFits(retryCount, jitter)
    ensures MinDelay <= d
    ensures 4 * BaseDelay(retryCount) <= 5 * d <= 6 * BaseDelay(retryCount)
  {
    var base := BaseDelay(retryCount);
    if base + jitter > MinDelay then base + jitter else MinDelay
  }

  // ---------------------------------------------------------------------------
  // Per-topic session state and handlers
  // ---------------------------------------------------------------------------

  /** The query string a topic's socket URL carries. */
  datatype Query = NoQuery | Level(level: string) | Interval(ms: int)

  /** The address a socket was opened on: the core's local socket path, the
      topic's route and its query. */
  datatype Endpoint = Endpoint(socketPath: string, topic: Topic, query: Query)

  /** The endpoint a topic connects to. The logs topic asks for the configured
      log level (default "info"), the connections topic for the configured poll
      interval (default 500 ms). */
  function EndpointFor(topic: Topic, socketPath: string, logLevel: Option<string>,
                       interval: Option<int>): (e: Endpoint)
    ensures e.socketPath == socketPath && e.topic == topic
    ensures topic == Logs <==> e.query.Level?
    ensures topic == Connections <==> e.query.Interval?
    ensures e.query.Level? ==> e.query.level == (if logLevel.Some? then logLevel.value else "info")
    ensures e.query.Interval? ==> e.query.ms == (if interval.Some? then interval.value else 500)
  {
    var query := match topic
      case Logs => Level(logLevel.GetOr("info"))
      case Connections => Interval(interval.GetOr(500))
      case _ => NoQuery;
    Endpoint(socketPath, topic, query)
  }

  /** The topics whose open function awaits a configuration read before it
      creates the socket. */
  predicate NeedsConfig(topic: Topic) {
    topic == Logs || topic == Connections
  }

  type SocketId = nat

  class StreamSession {
    const topic: Topic
    /** The module-level socket handle (`mihomoTrafficWs` and its siblings). */
    var ws: Option<SocketId>
    /** Remaining automatic reconnects (`trafficRetry`). */
    var retry: int
    /** Reconnects since the last message; sizes the backoff (`trafficRetryCount`). */
    var retryCount: int
    /** Explicit stop requested by the caller (`trafficStopped`). */
    var stopped: bool
    /** Every socket opened so far; a socket's id is its index here. */
    var sockets: seq<Endpoint>
    /** Sockets whose message/close/error handlers are still attached. */
    var listening: set<SocketId>
    /** Sockets on which `close()` has been called. */
    var closeCalled: set<SocketId>
    /** Delays of the reconnect timers that are scheduled and have not fired. */
    var pending: seq<int>
    /** Decoded events sent to the main window, in order. */
    var emitted: seq<Value>
    /** Calls of the open function suspended at their configuration read (logs
        and connections only): each creates a socket when it resumes. */
    var awaitingConfig: nat

    ghost predicate Valid()
      reads this
    {
      && 0 <= retry <= InitialRetry
      && retry + retryCount == InitialRetry
      && (ws.Some? ==> ws.value < |sockets|)
      && (forall s :: s in listening ==> s < |sockets|)
      && (forall i :: 0 <= i < |pending| ==> MinDelay <= pending[i])
    }

    constructor (topic: Topic)
      ensures Valid()
      ensures this.topic == topic
      ensures ws == None && retry == InitialRetry && retryCount == 0 && !stopped
      ensures sockets == [] && listening == {} && closeCalled == {}
      ensures pending == [] && emitted == [] && awaitingConfig == 0
    {
      this.topic := topic;
      ws := None;
      retry := InitialRetry;
      retryCount := 0;
      stopped := false;
      sockets := [];
      listening := {};
      closeCalled := {};
      pending := [];
      emitted := [];
      awaitingConfig := 0;
    }

    /** `new WebSocket(...)` and the handler assignments that follow it: open a
        new socket, attach the handlers to it and make it the current handle. A
        socket held before is neither closed nor detached. */
    method Open(socketPath: string, logLevel: Option<string>, interval: Option<int>)
      requires Valid()
      modifies this`sockets, this`ws, this`listening
      ensures Valid()
      ensures sockets == old(sockets) + [EndpointFor(topic, socketPath, logLevel, interval)]
      ensures ws == Some(|old(sockets)|)
      ensures listening == old(listening) + {|old(sockets)|}
    {
      var id := |sockets|;
      sockets := sockets + [EndpointFor(topic, socketPath, logLevel, interval)];
      ws := Some(id);
      listening := listening + {id};
    }

    /** mihomoTraffic / mihomoMemory / mihomoLogs / mihomoConnections called.
        Traffic and memory create their socket at once. Logs and connections
        first await the configuration (the log level, the poll interval): the
        call is suspended, and the socket is created in `ResumeOpen`. */
    method Connect(socketPath: string)
      requires Valid()
      modifies this`sockets, this`ws, this`listening, this`awaitingConfig
      ensures Valid()
      ensures NeedsConfig(topic) ==>
        && awaitingConfig == old(awaitingConfig) + 1
        && sockets == old(sockets) && ws == old(ws) && listening == old(listening)
      ensures !NeedsConfig(topic) ==>
        && awaitingConfig == old(awaitingConfig)
        && sockets == old(sockets) + [EndpointFor(topic, socketPath, None, None)]
        && ws == Some(|old(sockets)|)
        && listening == old(listening) + {|old(sockets)|}
    {
      if NeedsConfig(topic) {
        awaitingConfig := awaitingConfig + 1;
      } else {
        Open(socketPath, None, None);
      }
    }

    /** A suspended logs or connections call resumes with the configuration it
        read, and creates its socket. As written, it does not look at the stop
        flag again: a stop issued during the read does not prevent the socket. */
    method ResumeOpen(socketPath: string, logLevel: Option<string>, interval: Option<int>)
      requires Valid() && NeedsConfig(topic) && awaitingConfig > 0
      modifies this`sockets, this`ws, this`listening, this`awaitingConfig
      ensures Valid()
      ensures awaitingConfig == old(awaitingConfig) - 1
      ensures sockets == old(sockets) + [EndpointFor(topic, socketPath, logLevel, interval)]
      ensures ws == Some(|old(sockets)|)
      ensures listening == old(listening) + {|old(sockets)|}
    {
      awaitingConfig := awaitingConfig - 1;
      Open(socketPath, logLevel, interval);
    }

    /** The resumption as evidently intended: the stop flag is checked again
        after the read, so a stopped topic gets no socket and holds no handle. */
    method ResumeOpenChecked(socketPath: string, logLevel: Option<string>, interval: Option<int>)
      requires Valid() && NeedsConfig(topic) && awaitingConfig > 0
      modifies this`sockets, this`ws, this`listening, this`awaitingConfig
      ensures Valid()
      ensures awaitingConfig == old(awaitingConfig) - 1
      ensures stopped ==> sockets == old(sockets) && ws == old(ws) && listening == old(listening)
      ensures !stopped ==>
        && sockets == old(sockets) + [EndpointFor(topic, socketPath, logLevel, interval)]
        && ws == Some(|old(sockets)|)
        && listening == old(listening) + {|old(sockets)|}
      ensures old(stopped ==> ws.None?) ==> (stopped ==> ws.None?)
    {
      awaitingConfig := awaitingConfig - 1;
      if !stopped {
        Open(socketPath, logLevel, interval);
      }
    }

    /** start*: clear the stop flag and call the open function. The retry
        budget and counter are left as they are. */
    method Start(socketPath: string)
      requires Valid()
      modifies this`stopped, this`sockets, this`ws, this`listening, this`awaitingConfig
      ensures Valid()
      ensures !stopped
      ensures NeedsConfig(topic) ==>
        && awaitingConfig == old(awaitingConfig) + 1
        && sockets == old(sockets) && ws == old(ws) && listening == old(listening)
      ensures !NeedsConfig(topic) ==>
        && awaitingConfig == old(awaitingConfig)
        && sockets == old(sockets) + [EndpointFor(topic, socketPath, None, None)]
        && ws == Some(|old(sockets)|)
        && listening == old(listening) + {|old(sockets)|}
    {
      stopped := false;
      Connect(socketPath);
    }

    /** stop*: set the stop flag; if a handle is held, detach its handlers, close
        it when it is open (`isOpen` is its readyState) and drop the handle.
        Pending timers stay scheduled; the flag makes them do nothing. */
    method Stop(isOpen: bool)
      requires Valid()
      modifies this`stopped, this`listening, this`closeCalled, this`ws
      ensures Valid()
      ensures stopped && ws == None
      ensures old(ws).Some? ==> listening == old(listening) - {old(ws).value}
      ensures old(ws).Some? ==>
        closeCalled == if isOpen then old(closeCalled) + {old(ws).value} else old(closeCalled)
      ensures old(ws).None? ==> listening == old(listening) && closeCalled == old(closeCalled)
      // A second stop changes nothing: stop is idempotent.
      ensures old(stopped) && old(ws).None? ==>
        listening == old(listening) && closeCalled == old(closeCalled)
    {
      stopped := true;
      if ws.Some? {
        listening := listening - {ws.value};
        if isOpen {
          closeCalled := closeCalled + {ws.value};
        }
        ws := None;
      }
    }

    /** restartMihomoConnections: stop, then start. Only the connections topic
        has it. The new socket is created when the configuration read resumes,
        so right after the call no handle is held. */
    method Restart(isOpen: bool, socketPath: string)
      requires Valid() && topic == Connections
      modifies this`stopped, this`listening, this`closeCalled, this`ws, this`sockets, this`awaitingConfig
      ensures Valid()
      ensures !stopped && ws == None
      ensures awaitingConfig == old(awaitingConfig) + 1
      ensures sockets == old(sockets)
      ensures old(ws).Some? ==> listening == old(listening) - {old(ws).value}
      ensures old(ws).None? ==> listening == old(listening)
      ensures closeCalled
           == if old(ws).Some? && isOpen then old(closeCalled) + {old(ws).value} else old(closeCalled)
    {
      Stop(isOpen);
      Start(socketPath);
    }

    /** A stop issued while a started logs or connections topic reads its
        configuration: when the read resumes, a socket is opened, attached and
        held as the handle although the topic is stopped. */
    method StopDuringConfigRead(socketPath: string, isOpen: bool, logLevel: Option<string>, interval: Option<int>)
      requires Valid() && NeedsConfig(topic)
      modifies this`stopped, this`listening, this`closeCalled, this`ws, this`sockets, this`awaitingConfig
      ensures Valid()
      ensures stopped
      ensures ws == Some(|old(sockets)|) && |old(sockets)| in listening
      ensures awaitingConfig == old(awaitingConfig)
    {
      Start(socketPath);
      Stop(isOpen);
      ResumeOpen(socketPath, logLevel, interval);
    }

    /** The same sequence with the intended re-check: the stopped topic ends
        with no handle and no new socket. */
    method StopDuringConfigReadChecked(socketPath: string, isOpen: bool, logLevel: Option<string>, interval: Option<int>)
      requires Valid() && NeedsConfig(topic)
      modifies this`stopped, this`listening, this`closeCalled, this`ws, this`sockets, this`awaitingConfig
      ensures Valid()
      ensures stopped && ws == None
      ensures sockets == old(sockets)
      ensures listening <= old(listening)
      ensures awaitingConfig == old(awaitingConfig)
    {
      Start(socketPath);
      Stop(isOpen);
      ResumeOpenChecked(socketPath, logLevel, interval);
    }

    /** onmessage of socket `s`. `decoded` is the result of JSON.parse on the
        payload, None when it throws. Traffic parses before resetting the budget,
        so a malformed traffic payload changes nothing; the other topics reset
        first and then drop a payload they cannot parse. */
    method OnMessage(s: SocketId, decoded: Option<Value>)
      requires Valid()
      modifies this`retry, this`retryCount, this`emitted
      ensures Valid()
      ensures var resets := s in old(listening) && (topic != Traffic || decoded.Some?);
        && (resets ==> retry == InitialRetry && retryCount == 0)
        && (!resets ==> retry == old(retry) && retryCount == old(retryCount))
        && emitted == if resets && decoded.Some? then old(emitted) + [decoded.value] else old(emitted)
      ensures ws == old(ws) && stopped == old(stopped) && sockets == old(sockets)
      ensures listening == old(listening) && closeCalled == old(closeCalled) && pending == old(pending)
    {
      if s !in listening {
        return;
      }
      if topic == Traffic && decoded.None? {
        return;
      }
      retry := InitialRetry;
      retryCount := 0;
      if decoded.Some? {
        emitted := emitted + [decoded.value];
      }
    }

    /** onclose of socket `s`: while the budget lasts and no stop was requested,
        spend one retry and schedule exactly one reconnect after the backoff
        delay for the incremented counter; otherwise do nothing. */
    method OnClose(s: SocketId, jitter: int)
      requires Valid()
      requires JitterFits(retryCount + 1, jitter)
      modifies this`retry, this`retryCount, this`pending
      ensures Valid()
      ensures var retries := s in old(listening) && old(retry) != 0 && !old(stopped);
        && (retries ==> retry == old(retry) - 1 && retryCount == old(retryCount) + 1
                        && pending == old(pending) + [BackoffDelay(old(retryCount) + 1, jitter)])
        && (!retries ==> retry == old(retry) && retryCount == old(retryCount) && pending == old(pending))
      ensures ws == old(ws) && stopped == old(stopped) && sockets == old(sockets)
      ensures listening == old(listening) && closeCalled == old(closeCalled) && emitted == old(emitted)
    {
      if s in listening && retry != 0 && !stopped {
        retry := retry - 1;
        retryCount := retryCount + 1;
        var delay := BackoffDelay(retryCount, jitter);
        pending := pending + [delay];
      }
    }

    /** onerror of socket `s`: close the CURRENT handle (not necessarily `s`) and
        drop it. The close event that follows goes through OnClose. */
    method OnError(s: SocketId)
      requires Valid()
      modifies this`closeCalled, this`ws
      ensures Valid()
      ensures s in old(listening) && old(ws).Some? ==>
        ws == None && closeCalled == old(closeCalled) + {old(ws).value}
      ensures !(s in old(listening) && old(ws).Some?) ==>
        ws == old(ws) && closeCalled == old(closeCalled)
      ensures retry == old(retry) && retryCount == old(retryCount) && stopped == old(stopped)
      ensures sockets == old(sockets) && listening == old(listening)
      ensures pending == old(pending) && emitted == old(emitted)
    {
      if s in listening && ws.Some? {
        closeCalled := closeCalled + {ws.value};
        ws := None;
      }
    }

    /** The `i`-th scheduled reconnect timer fires: it is removed, and it calls
        the open function only if the topic is not stopped at that moment. */
    method FireReconnect(i: nat, socketPath: string)
      requires Valid()
      requires i < |pending|
      modifies this`pending, this`sockets, this`ws, this`listening, this`awaitingConfig
      ensures Valid()
      ensures pending == old(pending[..i] + pending[i + 1..])
      ensures stopped ==>
        sockets == old(sockets) && ws == old(ws) && listening == old(listening)
        && awaitingConfig == old(awaitingConfig)
      ensures !stopped && NeedsConfig(topic) ==>
        && awaitingConfig == old(awaitingConfig) + 1
        && sockets == old(sockets) && ws == old(ws) && listening == old(listening)
      ensures !stopped && !NeedsConfig(topic) ==>
        && awaitingConfig == old(awaitingConfig)
        && sockets == old(sockets) + [EndpointFor(topic, socketPath, None, None)]
        && ws == Some(|old(sockets)|)
        && listening == old(listening) + {|old(sockets)|}
    {
      pending := pending[..i] + pending[i + 1..];
      if !stopped {
        Connect(socketPath);
      }
    }

    /** A run of close events on a listening socket with no message and no
        stop in between, the `i`-th close drawing `jitters[i]` for the attempt
        it schedules: it schedules min(k, retry) reconnects in all, so from the
        initial budget never more than 10. */
    method CloseRepeatedly(s: SocketId, jitters: seq<int>)
      requires Valid() && s in listening && !stopped
      requires forall i :: 0 <= i < |jitters| ==> JitterFits(retryCount + Min(i, retry) + 1, jitters[i])
      modifies this`retry, this`retryCount, this`pending
      ensures Valid()
      ensures retry == RetryAfterCloses(old(retry), |jitters|)
      ensures |old(pending)| <= |pending| && pending[..|old(pending)|] == old(pending)
      ensures |pending| - |old(pending)| == Min(|jitters|, old(retry))
      ensures |pending| - |old(pending)| <= InitialRetry
    {
      for i := 0 to |jitters|
        invariant Valid()
        invariant retry == RetryAfterCloses(old(retry), i)
        invariant retryCount == old(retryCount) + Min(i, old(retry))
        invariant |pending| == |old(pending)| + (old(retry) - retry)
        invariant pending[..|old(pending)|] == old(pending)
      {
        RetryAfterClosesStep(old(retry), i);
        ConsecutiveClosesSchedule(old(retry), i);
        ConsecutiveClosesSchedule(old(retry), i + 1);
        OnClose(s, jitters[i]);
      }
      ConsecutiveClosesSchedule(old(retry), |jitters|);
    }
  }

  function Min(a: int, b: int): int { if a <= b then a else b }

  /** Retries left after `k` consecutive close events with no message in between
      (and no stop), starting from `retry`, and how many reconnects they schedule. */
  function RetryAfterCloses(retry: nat, k: nat): (r: nat)
    ensures r <= retry
  {
    if k == 0 || retry == 0 then retry else RetryAfterCloses(retry - 1, k - 1)
  }

  /** One more close spends one more retry, unless none is left. */
  lemma {:induction false} RetryAfterClosesStep(retry: nat, k: nat)
    ensures RetryAfterCloses(retry, k + 1)
         == if RetryAfterCloses(retry, k) == 0 then 0 else RetryAfterCloses(retry, k) - 1
  {
    if k != 0 && retry != 0 {
      RetryAfterClosesStep(retry - 1, k - 1);
    }
  }

  /** k consecutive closes schedule min(k, retry) reconnects: with the initial
      budget of 10, never more than 10 without an intervening message. */
  lemma {:induction false} ConsecutiveClosesSchedule(retry: nat, k: nat)
    ensures retry - RetryAfterCloses(retry, k) == Min(k, retry)
  {
    if k != 0 && retry != 0 {
      ConsecutiveClosesSchedule(retry - 1, k - 1);
    }
  }
}
