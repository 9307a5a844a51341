/**
  The decision logic of the driver's TCP stream factory: which address family
  a new socket gets, which resolved address a blocking connect ends up on, how
  the asynchronous connect turns its `cancelled`/`timedOut` flags and a caught
  exception into an outcome, and in which order socket and stream options are
  applied.

  Sockets are abstract handles numbered by the caller. The name resolver and
  the network are oracles: a resolved candidate carries the outcome its
  connect will have. The cancellation and timer callbacks of the asynchronous
  path are events of a trace that set flags.
 */
module TcpStreamFactory {
  import opened Basics

  /** `System.Net.Sockets.AddressFamily`, reduced to the members the factory tells apart. */
  datatype AddressFamily = Unknown | Unspecified | InterNetwork | InterNetworkV6 | OtherFamily(code: int)

  /** The two families that mean "not stated": the settings' family is used in their place. */
  predicate IsUnsetFamily(f: AddressFamily) {
    f.Unspecified? || f.Unknown?
  }

  datatype IPAddress = IPAddress(family: AddressFamily, bytes: seq<int>)

  /**
    A `DnsEndPoint` (a host name still to resolve, with the family it was
    constructed with) or any other end point, which names a concrete address.
   */
  datatype EndPoint =
    | DnsEndPoint(host: string, port: int, requestedFamily: AddressFamily)
    | IPEndPoint(address: IPAddress, port: int)
  {
    function Family(): AddressFamily {
      match this
      case DnsEndPoint(_, _, f) => f
      case IPEndPoint(a, _) => a.family
    }
  }

  /** The socket options the factory touches, plus whatever a caller's configurator sets. */
  datatype SocketOptions = SocketOptions(noDelay: bool, receiveBufferSize: int, sendBufferSize: int, custom: map<string, int>)

  /**
    The part of `TcpStreamSettings` the factory reads. Durations are whole
    milliseconds; `None` is an absent `TimeSpan?` or configurator.
   */
  datatype TcpStreamSettings = TcpStreamSettings(
    addressFamily: AddressFamily,
    connectTimeoutMs: int,
    readTimeoutMs: Option<int>,
    writeTimeoutMs: Option<int>,
    receiveBufferSize: int,
    sendBufferSize: int,
    socketConfigurator: Option<SocketOptions -> SocketOptions>)

  /** An abstract socket handle: its number and the family it was created with. */
  datatype Socket = Socket(id: nat, family: AddressFamily)

  datatype Exception =
    | SocketException(errorCode: int)
    | ObjectDisposedException
    | OperationCanceledException
    | TimeoutException(endPoint: EndPoint, timeoutMs: int)
    | UnableToConnectOnAnyAddress

  // ---------------------------------------------------------------------------
  // Address family
  // ---------------------------------------------------------------------------

  /** The family of the end point, falling back to the settings' family when it is unset. */
  function GetAddressFamily(settings: TcpStreamSettings, endPoint: EndPoint): (f: AddressFamily)
    ensures IsUnsetFamily(endPoint.Family()) ==> f == settings.addressFamily
    ensures !IsUnsetFamily(endPoint.Family()) ==> f == endPoint.Family()
  {
    var family := endPoint.Family();
    if family == Unspecified || family == Unknown then settings.addressFamily else family
  }

  /** A new stream socket for `endPoint`; its family is decided by the same fallback rule. */
  function CreateSocket(settings: TcpStreamSettings, endPoint: EndPoint, id: nat): (s: Socket)
    ensures s.id == id
    ensures s.family == GetAddressFamily(settings, endPoint)
  {
    var family := endPoint.Family();
    var family' := if IsUnsetFamily(family) then settings.addressFamily else family;
    Socket(id, family')
  }

  /** A socket family is unset only when both the end point and the settings leave it unset. */
  lemma FamilyUnsetOnlyIfBothUnset(settings: TcpStreamSettings, endPoint: EndPoint)
    ensures IsUnsetFamily(GetAddressFamily(settings, endPoint))
        <==> IsUnsetFamily(endPoint.Family()) && IsUnsetFamily(settings.addressFamily)
  {
  }

  // ---------------------------------------------------------------------------
  // Socket and stream options
  // ---------------------------------------------------------------------------

  /** One option assignment, in the order the factory performs them. */
  datatype ConfigStep =
    | SetNoDelay(on: bool)
    | SetReceiveBufferSize(size: int)
    | SetSendBufferSize(size: int)
    | RunSocketConfigurator(configure: SocketOptions -> SocketOptions)
    | SetReadTimeout(ms: int)
    | SetWriteTimeout(ms: int)

  /** What a configured connection looks like: socket options and the stream timeouts explicitly set. */
  datatype Configuration = Configuration(options: SocketOptions, readTimeout: Option<int>, writeTimeout: Option<int>)

  function Apply(c: Configuration, step: ConfigStep): Configuration {
    match step
    case SetNoDelay(on) => c.(options := c.options.(noDelay := on))
    case SetReceiveBufferSize(n) => c.(options := c.options.(receiveBufferSize := n))
    case SetSendBufferSize(n) => c.(options := c.options.(sendBufferSize := n))
    case RunSocketConfigurator(configure) => c.(options := configure(c.options))
    case SetReadTimeout(ms) => c.(readTimeout := Some(ms))
    case SetWriteTimeout(ms) => c.(writeTimeout := Some(ms))
  }

  /** Performs the steps from first to last. */
  function ApplyAll(c: Configuration, steps: seq<ConfigStep>): Configuration
    decreases |steps|
  {
    if |steps| == 0 then c else ApplyAll(Apply(c, steps[0]), steps[1..])
  }

  /** Performing `a + b` is performing `a`, then `b`. */
  lemma {:induction false} ApplyAllAppend(c: Configuration, a: seq<ConfigStep>, b: seq<ConfigStep>)
    ensures ApplyAll(c, a + b) == ApplyAll(ApplyAll(c, a), b)
    decreases |a|
  {
    if |a| == 0 {
      assert a + b == b;
    } else {
      assert (a + b)[1..] == a[1..] + b;
      ApplyAllAppend(Apply(c, a[0]), a[1..], b);
    }
  }

  /**
    The options set on a freshly connected socket: no-delay on, then the
    receive buffer, then the send buffer, and the caller's configurator last
    and only when there is one.
   */
  function ConfigureConnectedSocket(settings: TcpStreamSettings): (steps: seq<ConfigStep>)
    ensures |steps| == 3 || |steps| == 4
    ensures steps[0] == SetNoDelay(true)
    ensures steps[1] == SetReceiveBufferSize(settings.receiveBufferSize)
    ensures steps[2] == SetSendBufferSize(settings.sendBufferSize)
    ensures |steps| == 4 <==> settings.socketConfigurator.Some?
    ensures settings.socketConfigurator.Some? ==> steps[3] == RunSocketConfigurator(settings.socketConfigurator.value)
  {
    var defaults := [SetNoDelay(true), SetReceiveBufferSize(settings.receiveBufferSize), SetSendBufferSize(settings.sendBufferSize)];
    match settings.socketConfigurator
    case Some(configure) => defaults + [RunSocketConfigurator(configure)]
    case None => defaults
  }

  /** The socket options after the factory's defaults, before any configurator runs. */
  function DefaultsApplied(settings: TcpStreamSettings, os: SocketOptions): SocketOptions {
    os.(noDelay := true, receiveBufferSize := settings.receiveBufferSize, sendBufferSize := settings.sendBufferSize)
  }

  /**
    Because the configurator runs last it sees the factory's defaults and can
    override the three options set before it: the socket options end as the
    configurator applied to the defaults, or the defaults alone when there is
    no configurator. The stream timeouts, set after this, are untouched here.
   */
  lemma {:induction false} ConfiguratorRunsAfterDefaults(settings: TcpStreamSettings, c: Configuration)
    ensures ApplyAll(c, ConfigureConnectedSocket(settings))
         == c.(options := match settings.socketConfigurator
                          case None => DefaultsApplied(settings, c.options)
                          case Some(configure) => configure(DefaultsApplied(settings, c.options)))
  {
    var steps := ConfigureConnectedSocket(settings);
    var c1 := Apply(c, steps[0]);
    var c2 := Apply(c1, steps[1]);
    var c3 := Apply(c2, steps[2]);
    assert ApplyAll(c, steps) == ApplyAll(c1, steps[1..]);
    assert steps[1..][0] == steps[1] && steps[1..][1..] == steps[2..];
    assert ApplyAll(c1, steps[1..]) == ApplyAll(c2, steps[2..]);
    assert steps[2..][0] == steps[2] && steps[2..][1..] == steps[3..];
    assert ApplyAll(c2, steps[2..]) == ApplyAll(c3, steps[3..]);
    match settings.socketConfigurator {
      case None =>
        assert steps[3..] == [];
      case Some(configure) =>
        assert steps[3..] == [RunSocketConfigurator(configure)];
        assert ApplyAll(c3, steps[3..]) == ApplyAll(Apply(c3, steps[3]), []);
    }
  }

  /** The timeout steps on the network stream: each only when present and non-zero, read before write. */
  function StreamTimeoutSteps(settings: TcpStreamSettings): (steps: seq<ConfigStep>)
    ensures forall i :: 0 <= i < |steps| ==> steps[i].SetReadTimeout? || steps[i].SetWriteTimeout?
  {
    var read :=
      if settings.readTimeoutMs.Some? && settings.readTimeoutMs.value != 0
      then [SetReadTimeout(settings.readTimeoutMs.value)] else [];
    var write :=
      if settings.writeTimeoutMs.Some? && settings.writeTimeoutMs.value != 0
      then [SetWriteTimeout(settings.writeTimeoutMs.value)] else [];
    read + write
  }

  /** A timeout in the settings reaches the stream exactly when it is present and non-zero. */
  function EffectiveTimeout(t: Option<int>): Option<int> {
    if t.Some? && t.value != 0 then t else None
  }

  lemma {:induction false} StreamTimeoutsApplied(settings: TcpStreamSettings, c: Configuration)
    requires c.readTimeout.None? && c.writeTimeout.None?
    ensures ApplyAll(c, StreamTimeoutSteps(settings))
         == c.(readTimeout := EffectiveTimeout(settings.readTimeoutMs),
               writeTimeout := EffectiveTimeout(settings.writeTimeoutMs))
  {
    var read :=
      if settings.readTimeoutMs.Some? && settings.readTimeoutMs.value != 0
      then [SetReadTimeout(settings.readTimeoutMs.value)] else [];
    var write :=
      if settings.writeTimeoutMs.Some? && settings.writeTimeoutMs.value != 0
      then [SetWriteTimeout(settings.writeTimeoutMs.value)] else [];
    assert StreamTimeoutSteps(settings) == read + write;
    ApplyAllAppend(c, read, write);
    var c' := ApplyAll(c, read);
    if |read| == 1 {
      assert ApplyAll(c, read) == ApplyAll(Apply(c, read[0]), []);
    }
    if |write| == 1 {
      assert ApplyAll(c', write) == ApplyAll(Apply(c', write[0]), []);
    }
  }

  /** A network stream that owns its socket, with everything the factory applied to it, in order. */
  datatype NetworkStream = NetworkStream(socket: Socket, ownsSocket: bool, config: Configuration, applied: seq<ConfigStep>)

  /**
    Configures a connected socket and wraps it in a stream that owns it.
    Setting an option on a disposed socket throws, so a socket the connect
    callbacks already disposed fails at the first option. `os` is the
    socket's options as the operating system created them.
   */
  function CreateNetworkStream(settings: TcpStreamSettings, socket: Socket, socketDisposed: bool, os: SocketOptions)
    : (r: Result<NetworkStream, Exception>)
    ensures socketDisposed <==> r.Failure?
    ensures r.Failure? ==> r.error == ObjectDisposedException
    ensures r.Success? ==> r.value.socket == socket && r.value.ownsSocket
    ensures r.Success? ==> |r.value.applied| >= |ConfigureConnectedSocket(settings)|
    ensures r.Success? ==> r.value.applied[..|ConfigureConnectedSocket(settings)|] == ConfigureConnectedSocket(settings)
    ensures r.Success? ==> r.value.config.options == match settings.socketConfigurator
                                                     case None => DefaultsApplied(settings, os)
                                                     case Some(configure) => configure(DefaultsApplied(settings, os))
    ensures r.Success? ==> r.value.config.readTimeout == EffectiveTimeout(settings.readTimeoutMs)
    ensures r.Success? ==> r.value.config.writeTimeout == EffectiveTimeout(settings.writeTimeoutMs)
    ensures r.Success? ==> r.value.applied == ConfigureConnectedSocket(settings) + StreamTimeoutSteps(settings)
    ensures r.Success? ==> r.value.config == ApplyAll(Configuration(os, None, None), r.value.applied)
  {
    if socketDisposed then
      Failure(ObjectDisposedException)
    else
      var socketSteps := ConfigureConnectedSocket(settings);
      var steps := socketSteps + StreamTimeoutSteps(settings);
      var initial := Configuration(os, None, None);
      ApplyAllAppend(initial, socketSteps, StreamTimeoutSteps(settings));
      ConfiguratorRunsAfterDefaults(settings, initial);
      StreamTimeoutsApplied(settings, ApplyAll(initial, socketSteps));
      assert steps[..|socketSteps|] == socketSteps;
      Success(NetworkStream(socket, true, ApplyAll(initial, steps), steps))
  }

  // ---------------------------------------------------------------------------
  // Blocking connect: resolved candidates, one after another
  // ---------------------------------------------------------------------------

  datatype ConnectOutcome = Accepts | Refuses(cause: Exception)

  /** A resolved address, with the outcome a connect to it will have. */
  datatype Candidate = Candidate(address: IPAddress, outcome: ConnectOutcome)

  /** A socket created and the end point it was asked to connect to. */
  datatype Attempt = Attempt(socket: Socket, target: EndPoint)

  datatype ConnectRun = ConnectRun(result: Result<Socket, Exception>, attempts: seq<Attempt>)

  /** The index of the first candidate that accepts, in resolver order. */
  function FirstAccepting(cs: seq<Candidate>): (k: Option<nat>)
    ensures k.Some? ==> k.value < |cs| && cs[k.value].outcome.Accepts?
    ensures k.Some? ==> forall j :: 0 <= j < k.value ==> cs[j].outcome.Refuses?
    ensures k.None? <==> forall j :: 0 <= j < |cs| ==> cs[j].outcome.Refuses?
    decreases |cs|
  {
    if |cs| == 0 then None
    else if cs[0].outcome.Accepts? then Some(0)
    else match FirstAccepting(cs[1..])
         case None => None
         case Some(k) => Some(k + 1)
  }

  /**
    The `foreach` over resolved addresses: a new socket per address, all of
    the same `family`; the first connect that succeeds returns its socket and
    nothing later is tried; when every connect fails, the exception of the
    last one is thrown. `lastExc` is the exception caught so far.
   */
  function ConnectEach(family: AddressFamily, port: int, cs: seq<Candidate>, nextId: nat, lastExc: Option<Exception>)
    : (run: ConnectRun)
    ensures |run.attempts| <= |cs|
    ensures forall j :: 0 <= j < |run.attempts| ==>
              run.attempts[j] == Attempt(Socket(nextId + j, family), IPEndPoint(cs[j].address, port))
    ensures forall j :: 0 <= j < |run.attempts| - 1 ==> cs[j].outcome.Refuses?
    ensures run.result.Success? ==>
              && |run.attempts| > 0
              && cs[|run.attempts| - 1].outcome.Accepts?
              && run.result.value == run.attempts[|run.attempts| - 1].socket
    ensures run.result.Failure? ==> |run.attempts| == |cs| && forall j :: 0 <= j < |cs| ==> cs[j].outcome.Refuses?
    ensures run.result.Failure? && |cs| > 0 ==> run.result.error == cs[|cs| - 1].outcome.cause
    ensures |cs| == 0 ==> run.result == Failure(if lastExc.Some? then lastExc.value else UnableToConnectOnAnyAddress)
    decreases |cs|
  {
    if |cs| == 0 then
      ConnectRun(Failure(if lastExc.Some? then lastExc.value else UnableToConnectOnAnyAddress), [])
    else
      var s := Socket(nextId, family);
      var attempt := Attempt(s, IPEndPoint(cs[0].address, port));
      match cs[0].outcome
      case Accepts => ConnectRun(Success(s), [attempt])
      case Refuses(e) =>
        var rest := ConnectEach(family, port, cs[1..], nextId + 1, Some(e));
        ConnectRun(rest.result, [attempt] + rest.attempts)
  }

  /**
    The candidate loop in terms of the first accepting address: with one, the
    attempts stop at it and its socket is returned; without one, every
    address is tried.
   */
  lemma ConnectEachStopsAtFirstAccepting(family: AddressFamily, port: int, cs: seq<Candidate>, nextId: nat, lastExc: Option<Exception>)
    ensures FirstAccepting(cs).Some? ==>
              && |ConnectEach(family, port, cs, nextId, lastExc).attempts| == FirstAccepting(cs).value + 1
              && ConnectEach(family, port, cs, nextId, lastExc).result == Success(Socket(nextId + FirstAccepting(cs).value, family))
    ensures FirstAccepting(cs).None? ==>
              && |ConnectEach(family, port, cs, nextId, lastExc).attempts| == |cs|
              && ConnectEach(family, port, cs, nextId, lastExc).result.Failure?
  {
  }

  /**
    What the environment of a blocking connect answers: the resolver's
    addresses for a host name (or its failure), the outcome of a connect to a
    literal end point, the number of the first socket created, and the
    options a new socket has.
   */
  datatype Network = Network(
    dns: Result<seq<Candidate>, Exception>,
    literal: ConnectOutcome,
    firstSocketId: nat,
    os: SocketOptions)

  /**
    The blocking connect: a host name is resolved and its addresses tried in
    order, each socket using the family derived from the original end point;
    any other end point gets exactly one socket and one connect.
   */
  function Connect(settings: TcpStreamSettings, endPoint: EndPoint, net: Network): (run: ConnectRun)
    ensures forall j :: 0 <= j < |run.attempts| ==>
              run.attempts[j].socket == Socket(net.firstSocketId + j, GetAddressFamily(settings, endPoint))
    ensures run.result.Success? ==> |run.attempts| > 0 && run.result.value == run.attempts[|run.attempts| - 1].socket
    ensures endPoint.DnsEndPoint? && net.dns.Failure? ==> run == ConnectRun(Failure(net.dns.error), [])
    ensures endPoint.DnsEndPoint? && net.dns == Success([]) ==> run == ConnectRun(Failure(UnableToConnectOnAnyAddress), [])
    ensures endPoint.IPEndPoint? ==> |run.attempts| == 1 && run.attempts[0].target == endPoint
    ensures endPoint.IPEndPoint? ==> (run.result.Success? <==> net.literal.Accepts?)
    ensures endPoint.IPEndPoint? && net.literal.Refuses? ==> run.result.error == net.literal.cause
  {
    var family := GetAddressFamily(settings, endPoint);
    match endPoint
    case DnsEndPoint(_, port, _) =>
      (match net.dns
       case Failure(e) => ConnectRun(Failure(e), [])
       case Success(cs) => ConnectEach(family, port, cs, net.firstSocketId, None))
    case IPEndPoint(_, _) =>
      var s := Socket(net.firstSocketId, family);
      var result := match net.literal
                    case Accepts => Success(s)
                    case Refuses(e) => Failure(e);
      ConnectRun(result, [Attempt(s, endPoint)])
  }

  /**
    For a host name whose addresses resolve to `cs`: success exactly when some
    address accepts, on the socket of the first one; attempts stop there;
    candidates are tried to the addresses in resolver order on the end
    point's port.
   */
  lemma FirstAcceptingAddressWins(settings: TcpStreamSettings, endPoint: EndPoint, net: Network, cs: seq<Candidate>)
    requires endPoint.DnsEndPoint? && net.dns == Success(cs)
    ensures Connect(settings, endPoint, net).result.Success? <==> exists k :: 0 <= k < |cs| && cs[k].outcome.Accepts?
    ensures forall k :: 0 <= k < |cs| && cs[k].outcome.Accepts? && (forall j :: 0 <= j < k ==> cs[j].outcome.Refuses?) ==>
              && |Connect(settings, endPoint, net).attempts| == k + 1
              && Connect(settings, endPoint, net).attempts[k].target == IPEndPoint(cs[k].address, endPoint.port)
    ensures forall j :: 0 <= j < |Connect(settings, endPoint, net).attempts| ==>
              Connect(settings, endPoint, net).attempts[j].target == IPEndPoint(cs[j].address, endPoint.port)
  {
    ConnectEachStopsAtFirstAccepting(GetAddressFamily(settings, endPoint), endPoint.port, cs, net.firstSocketId, None);
  }

  /** When every resolved address refuses, the exception thrown is the last address's. */
  lemma AllRefusedThrowsLast(settings: TcpStreamSettings, endPoint: EndPoint, net: Network, cs: seq<Candidate>)
    requires endPoint.DnsEndPoint? && net.dns == Success(cs)
    requires |cs| > 0 && forall j :: 0 <= j < |cs| ==> cs[j].outcome.Refuses?
    ensures Connect(settings, endPoint, net).result == Failure(cs[|cs| - 1].outcome.cause)
    ensures |Connect(settings, endPoint, net).attempts| == |cs|
  {
  }

  /** The blocking stream: connect, then configure the socket and wrap it. */
  datatype StreamRun = StreamRun(result: Result<NetworkStream, Exception>, attempts: seq<Attempt>)

  /**
    `CreateStream`: the blocking path. Its cancellation token is accepted and
    never consulted, and no connect timeout is applied.
   */
  function CreateStream(settings: TcpStreamSettings, endPoint: EndPoint, cancellationRequested: bool, net: Network)
    : (run: StreamRun)
    ensures run.attempts == Connect(settings, endPoint, net).attempts
    ensures run.result.Success? <==> Connect(settings, endPoint, net).result.Success?
    ensures run.result.Success? ==> run.result.value.socket == Connect(settings, endPoint, net).result.value
    ensures run.result.Failure? ==> run.result.error == Connect(settings, endPoint, net).result.error
    ensures run.result.Success? ==>
              run.result == CreateNetworkStream(settings, Connect(settings, endPoint, net).result.value, false, net.os)
  {
    var c := Connect(settings, endPoint, net);
    match c.result
    case Failure(e) => StreamRun(Failure(e), c.attempts)
    case Success(s) => StreamRun(CreateNetworkStream(settings, s, false, net.os), c.attempts)
  }

  /** The blocking path gives the same answer whether or not cancellation was requested. */
  lemma CreateStreamIgnoresCancellation(settings: TcpStreamSettings, endPoint: EndPoint, net: Network)
    ensures CreateStream(settings, endPoint, true, net) == CreateStream(settings, endPoint, false, net)
  {
  }

  // ---------------------------------------------------------------------------
  // Asynchronous connect: the connect races the cancellation and timer callbacks
  // ---------------------------------------------------------------------------

  /** The local state of `ConnectAsync`, with the socket's disposal and the token's state. */
  datatype RaceFlags = RaceFlags(
    connected: bool,
    cancelled: bool,
    timedOut: bool,
    socketDisposed: bool,
    cancellationRequested: bool)

  const Initial := RaceFlags(false, false, false, false, false)

  /**
    What can happen while the connect is awaited: the token is cancelled (a
    token already cancelled at registration runs its callback at once, which
    is this event first), the timer fires, or the connect completes.
   */
  datatype RaceEvent = CancellationRequested | TimerElapsed | ConnectSucceeded | ConnectFailed(cause: Exception)

  predicate IsCompletion(e: RaceEvent) {
    e.ConnectSucceeded? || e.ConnectFailed?
  }

  /** How `ConnectAsync` ends: by returning or by throwing. */
  datatype Completion = Returned | Threw(exception: Exception)

  datatype RaceResult = Awaiting(flags: RaceFlags) | Settled(flags: RaceFlags, completion: Completion)

  /** The registration callback: flags and disposes only while not connected. */
  function OnCancellation(f: RaceFlags): (r: RaceFlags)
    ensures r.cancellationRequested
    ensures !f.connected ==> r == f.(cancelled := true, socketDisposed := true, cancellationRequested := true)
    ensures f.connected ==> r == f.(cancellationRequested := true)
  {
    var f' := f.(cancellationRequested := true);
    if !f.connected then f'.(cancelled := true, socketDisposed := true) else f'
  }

  /** The timer callback: flags and disposes only while not connected. */
  function OnTimer(f: RaceFlags): (r: RaceFlags)
    ensures !f.connected ==> r == f.(timedOut := true, socketDisposed := true)
    ensures f.connected ==> r == f
  {
    if !f.connected then f.(timedOut := true, socketDisposed := true) else f
  }

  /**
    The `catch` of `ConnectAsync` and the code after the `using` blocks: a
    failure is rethrown unchanged unless a callback fired; once swallowed, a
    requested cancellation wins over the timeout, and a timeout exception is
    thrown only when the timer fired.
   */
  function AfterConnectFailure(settings: TcpStreamSettings, endPoint: EndPoint, f: RaceFlags, cause: Exception)
    : (c: Completion)
    ensures !f.cancelled && !f.timedOut ==> c == Threw(cause)
    ensures (f.cancelled || f.timedOut) && f.cancellationRequested ==> c == Threw(OperationCanceledException)
    ensures (f.cancelled || f.timedOut) ==>
              (c == Threw(TimeoutException(endPoint, settings.connectTimeoutMs)) <==> f.timedOut && !f.cancellationRequested)
    ensures c.Returned? <==> (f.cancelled || f.timedOut) && !f.cancellationRequested && !f.timedOut
  {
    if !f.cancelled && !f.timedOut then Threw(cause)
    else if f.cancellationRequested then Threw(OperationCanceledException)
    else if f.timedOut then Threw(TimeoutException(endPoint, settings.connectTimeoutMs))
    else Returned
  }

  /**
    Runs the callbacks up to the connect's completion. A successful connect
    sets `connected` and returns without looking at the other flags. Events
    after the completion are not looked at: the registration and the timer
    are disposed when the `using` blocks end.
   */
  function RunRace(settings: TcpStreamSettings, endPoint: EndPoint, f: RaceFlags, events: seq<RaceEvent>): (r: RaceResult)
    ensures r.Awaiting? <==> forall j :: 0 <= j < |events| ==> !IsCompletion(events[j])
    ensures f.cancellationRequested ==> r.flags.cancellationRequested
    ensures f.cancelled ==> r.flags.cancelled
    ensures f.timedOut ==> r.flags.timedOut
    ensures f.socketDisposed ==> r.flags.socketDisposed
    ensures r.flags.cancelled ==> f.cancelled || r.flags.cancellationRequested
    ensures r.flags.socketDisposed ==> f.socketDisposed || r.flags.cancelled || r.flags.timedOut
    ensures r.Settled? && r.completion.Returned? ==> r.flags.connected || (r.flags.cancelled && !r.flags.cancellationRequested)
    ensures r.Settled? && r.completion.Threw? && !r.flags.connected && !r.flags.cancelled && !r.flags.timedOut ==>
              exists j :: 0 <= j < |events| && events[j] == ConnectFailed(r.completion.exception)
    decreases |events|
  {
    if |events| == 0 then Awaiting(f)
    else match events[0]
      case CancellationRequested => RunRace(settings, endPoint, OnCancellation(f), events[1..])
      case TimerElapsed => RunRace(settings, endPoint, OnTimer(f), events[1..])
      case ConnectSucceeded => Settled(f.(connected := true), Returned)
      case ConnectFailed(e) => Settled(f, AfterConnectFailure(settings, endPoint, f, e))
  }

  /** The position of the first completion in the trace, or its length when there is none. */
  function CompletionIndex(events: seq<RaceEvent>): (k: nat)
    ensures k <= |events|
    ensures forall j :: 0 <= j < k ==> !IsCompletion(events[j])
    ensures k < |events| ==> IsCompletion(events[k])
    decreases |events|
  {
    if |events| == 0 then 0
    else if IsCompletion(events[0]) then 0
    else 1 + CompletionIndex(events[1..])
  }

  /** The flags after the callbacks of `pre` fired on a connect still in flight. */
  function FlagsAfter(f: RaceFlags, pre: seq<RaceEvent>): RaceFlags {
    RaceFlags(
      f.connected,
      f.cancelled || CancellationRequested in pre,
      f.timedOut || TimerElapsed in pre,
      f.socketDisposed || CancellationRequested in pre || TimerElapsed in pre,
      f.cancellationRequested || CancellationRequested in pre)
  }

  /**
    A declarative account of the race: the flags are set by exactly the
    callbacks that fired before the first completion, and that completion
    alone decides the outcome.
   */
  function RaceSpec(settings: TcpStreamSettings, endPoint: EndPoint, f: RaceFlags, events: seq<RaceEvent>): RaceResult {
    var k := CompletionIndex(events);
    var g := FlagsAfter(f, events[..k]);
    if k == |events| then Awaiting(g)
    else match events[k]
      case ConnectSucceeded => Settled(g.(connected := true), Returned)
      case ConnectFailed(e) => Settled(g, AfterConnectFailure(settings, endPoint, g, e))
      case _ => Awaiting(g)
  }

  lemma {:induction false} RunRaceMatchesSpec(settings: TcpStreamSettings, endPoint: EndPoint, f: RaceFlags, events: seq<RaceEvent>)
    requires !f.connected
    ensures RunRace(settings, endPoint, f, events) == RaceSpec(settings, endPoint, f, events)
    decreases |events|
  {
    if |events| == 0 {
      assert events[..0] == [];
    } else {
      var k := CompletionIndex(events);
      if IsCompletion(events[0]) {
        assert k == 0 && events[..0] == [];
      } else {
        var rest := events[1..];
        assert k == 1 + CompletionIndex(rest);
        assert events[..k] == [events[0]] + rest[..k - 1];
        var f' := if events[0].CancellationRequested? then OnCancellation(f) else OnTimer(f);
        RunRaceMatchesSpec(settings, endPoint, f', rest);
        assert FlagsAfter(f', rest[..k - 1]) == FlagsAfter(f, events[..k]);
        if k < |events| {
          assert events[k] == rest[k - 1];
        }
      }
    }
  }

  /**
    Started afresh, `ConnectAsync` returns normally exactly when its connect
    succeeds, whatever fired before: the swallow-and-return path is never
    taken, because a cancelled flag always comes with a cancelled token.
   */
  lemma ConnectAsyncReturnsOnlyOnSuccess(settings: TcpStreamSettings, endPoint: EndPoint, events: seq<RaceEvent>)
    ensures RunRace(settings, endPoint, Initial, events).Settled? && RunRace(settings, endPoint, Initial, events).completion.Returned?
        <==> CompletionIndex(events) < |events| && events[CompletionIndex(events)].ConnectSucceeded?
  {
    RunRaceMatchesSpec(settings, endPoint, Initial, events);
  }

  /**
    A failed connect with no callback before it is rethrown unchanged, and
    the socket is left undisposed.
   */
  lemma FailureWithoutCallbackIsRethrown(settings: TcpStreamSettings, endPoint: EndPoint, events: seq<RaceEvent>, cause: Exception)
    requires CompletionIndex(events) < |events| && events[CompletionIndex(events)] == ConnectFailed(cause)
    requires CancellationRequested !in events[..CompletionIndex(events)]
    requires TimerElapsed !in events[..CompletionIndex(events)]
    ensures RunRace(settings, endPoint, Initial, events).Settled?
    ensures RunRace(settings, endPoint, Initial, events).completion == Threw(cause)
    ensures !RunRace(settings, endPoint, Initial, events).flags.socketDisposed
  {
    RunRaceMatchesSpec(settings, endPoint, Initial, events);
  }

  /**
    A failed connect after the callbacks fired: cancellation wins whenever it
    fired, and the timeout exception is thrown when only the timer fired.
   */
  lemma FailureAfterCallbackIsClassified(settings: TcpStreamSettings, endPoint: EndPoint, events: seq<RaceEvent>, cause: Exception)
    requires CompletionIndex(events) < |events| && events[CompletionIndex(events)] == ConnectFailed(cause)
    ensures RunRace(settings, endPoint, Initial, events).Settled?
    ensures CancellationRequested in events[..CompletionIndex(events)] ==>
              RunRace(settings, endPoint, Initial, events).completion == Threw(OperationCanceledException)
    ensures CancellationRequested !in events[..CompletionIndex(events)] && TimerElapsed in events[..CompletionIndex(events)] ==>
              RunRace(settings, endPoint, Initial, events).completion == Threw(TimeoutException(endPoint, settings.connectTimeoutMs))
  {
    RunRaceMatchesSpec(settings, endPoint, Initial, events);
  }

  /** The task returned by `CreateStreamAsync`. */
  datatype StreamTask = Running | Faulted(error: Exception) | Completed(stream: NetworkStream)

  /**
    `CreateStreamAsync`: one socket for the end point (a host name is handed
    to the socket's own connect), the raced connect, then the same
    configuration as the blocking path.
   */
  function CreateStreamAsync(settings: TcpStreamSettings, endPoint: EndPoint, socketId: nat, events: seq<RaceEvent>, os: SocketOptions)
    : (t: StreamTask)
    ensures t.Completed? ==> t.stream.socket == CreateSocket(settings, endPoint, socketId)
    ensures t.Completed? ==>
              t == Completed(CreateNetworkStream(settings, CreateSocket(settings, endPoint, socketId), false, os).value)
    ensures RunRace(settings, endPoint, Initial, events).Settled? && RunRace(settings, endPoint, Initial, events).completion.Threw? ==>
              t == Faulted(RunRace(settings, endPoint, Initial, events).completion.exception)
    ensures t.Running? <==> RunRace(settings, endPoint, Initial, events).Awaiting?
  {
    var socket := CreateSocket(settings, endPoint, socketId);
    match RunRace(settings, endPoint, Initial, events)
    case Awaiting(_) => Running
    case Settled(_, Threw(e)) => Faulted(e)
    case Settled(f, Returned) =>
      match CreateNetworkStream(settings, socket, f.socketDisposed, os)
      case Success(stream) => Completed(stream)
      case Failure(e) => Faulted(e)
  }

  /**
    The asynchronous stream is delivered exactly when the connect completes
    first and succeeds. A success that comes after the timer or the
    cancellation already disposed the socket is not discarded by the connect
    logic; it fails later, when the first option is set on the disposed
    socket.
   */
  lemma AsyncCompletesOnlyOnFirstEventSuccess(settings: TcpStreamSettings, endPoint: EndPoint, socketId: nat, events: seq<RaceEvent>, os: SocketOptions)
    ensures CreateStreamAsync(settings, endPoint, socketId, events, os).Completed?
        <==> |events| > 0 && events[0] == ConnectSucceeded
    ensures CompletionIndex(events) > 0 && CompletionIndex(events) < |events| && events[CompletionIndex(events)] == ConnectSucceeded ==>
              CreateStreamAsync(settings, endPoint, socketId, events, os) == Faulted(ObjectDisposedException)
  {
    RunRaceMatchesSpec(settings, endPoint, Initial, events);
    var k := CompletionIndex(events);
    if 0 < k {
      assert events[0] in events[..k];
    }
  }

  /**
    A connect that succeeds after the timer fired is returned as a success,
    with the `timedOut` flag set and the socket already disposed.
   */
  lemma SuccessAfterTimeoutIsNotDiscarded(settings: TcpStreamSettings, endPoint: EndPoint, events: seq<RaceEvent>)
    requires CompletionIndex(events) < |events| && events[CompletionIndex(events)] == ConnectSucceeded
    requires TimerElapsed in events[..CompletionIndex(events)]
    ensures RunRace(settings, endPoint, Initial, events).Settled?
    ensures RunRace(settings, endPoint, Initial, events).completion == Returned
    ensures RunRace(settings, endPoint, Initial, events).flags.timedOut
    ensures RunRace(settings, endPoint, Initial, events).flags.socketDisposed
  {
    RunRaceMatchesSpec(settings, endPoint, Initial, events);
  }

  /** The task never completes while the connect is still in flight. */
  lemma AsyncRunningUntilCompletion(settings: TcpStreamSettings, endPoint: EndPoint, socketId: nat, events: seq<RaceEvent>, os: SocketOptions)
    ensures CreateStreamAsync(settings, endPoint, socketId, events, os).Running? <==> CompletionIndex(events) == |events|
  {
    RunRaceMatchesSpec(settings, endPoint, Initial, events);
  }
}
