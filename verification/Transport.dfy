/**
 The WebSocket transport as a state machine. Every method of the class is tied to a function
 on its view; what holds over whole runs is proved about those functions.
 */
module Transport {
  import opened Seqs
  import opened Text
  import opened JsonHubProtocol

  datatype State = Connecting | Connected | Reconnecting | Disconnected

  /** What an observer sees: callbacks, state changes, and the two calls the user makes. */
  datatype Event<+M> =
    | Started
    | Stopped
    | Moved(from: State, to: State)
    | OnOpen
    | OnClose
    | OnReconnect
    | Batch(messages: seq<M>)

  datatype View<+M> = View(
    state: State,
    manuallyClosing: bool,
    handshakeReceived: bool,
    hasHandler: bool,
    checkerRunning: bool,
    clientLive: bool,
    log: seq<Event<M>>)

  predicate Closes(from: State, to: State) {
    (from == Connected || from == Reconnecting) && to == Disconnected
  }

  /** The callback a state change fires. */
  function Callback<M>(from: State, to: State): seq<Event<M>> {
    if from == Connecting && to == Connected then [OnOpen]
    else if Closes(from, to) then [OnClose]
    else if from == Reconnecting && to == Connected then [OnReconnect]
    else []
  }

  function SetState<M>(v: View<M>, s: State): View<M> {
    if s == v.state then v else v.(state := s, log := v.log + [Moved(v.state, s)] + Callback(v.state, s))
  }

  function OnSocketError<M>(v: View<M>): View<M> {
    SetState(v, Disconnected)
  }

  /** `connects` says whether negotiating and connecting again succeeds. */
  function HandleReconnect<M>(v: View<M>, connects: bool): View<M> {
    if v.state == Reconnecting || v.manuallyClosing || !v.hasHandler || v.clientLive then v
    else SetState(v, Reconnecting).(clientLive := connects)
  }

  function OnSocketClose<M>(v: View<M>, connects: bool): View<M> {
    if !v.manuallyClosing && v.hasHandler && v.state != Reconnecting then HandleReconnect(v, connects)
    else SetState(v, Disconnected)
  }

  function Dispose<M>(v: View<M>, connects: bool): View<M> {
    if v.state == Disconnected then v else
    var u := v.(checkerRunning := false);
    if u.clientLive then OnSocketClose(u.(clientLive := false), connects) else u
  }

  function Stop<M>(v: View<M>, connects: bool): View<M> {
    if v.manuallyClosing || v.state == Disconnected then v
    else Dispose(v.(manuallyClosing := true, handshakeReceived := false, log := v.log + [Stopped]), connects)
  }

  function Start<M>(v: View<M>, connects: bool): View<M> {
    SetState(v.(log := v.log + [Started]), Connecting).(clientLive := connects)
  }

  /** The client's thread reports that it runs, and the handshake is sent. */
  function OnSocketOpen<M>(v: View<M>): View<M> {
    v.(handshakeReceived := false)
  }

  predicate IsAccepted(error: Option<string>) {
    error == None || error == Some("")
  }

  function EvaluateHandshake<M>(v: View<M>, error: Option<string>): View<M> {
    if IsAccepted(error) then
      var u := SetState(v.(handshakeReceived := true), Connected);
      u.(checkerRunning := u.checkerRunning || u.hasHandler)
    else
      Stop(OnSocketError(v), false)
  }

  function OnMessages<M>(v: View<M>, messages: seq<M>): View<M> {
    v.(log := v.log + [Batch(messages)])
  }

  function Batches<M>(messages: seq<M>): seq<Event<M>> {
    if |messages| > 0 then [Batch(messages)] else []
  }

  /** Messages that came with the handshake are handed on if there are any. */
  function HandOn<M>(v: View<M>, messages: seq<M>): View<M> {
    v.(log := v.log + Batches(messages))
  }

  /** What a frame is decoded to: an exception, a handshake response, or a batch. */
  datatype Reading<+M> = Undecoded | Response(error: Option<string>, messages: seq<M>) | Decoded(messages: seq<M>)

  function ReadRaw<M>(codec: Codec<M>, handshakeReceived: bool, raw: string): Reading<M> {
    if !handshakeReceived then
      match DecodeHandshake(codec, raw)
      case Raised => Undecoded
      case Handshake(error, messages) => Response(error, messages)
    else
      match Messages(codec, raw)
      case None => Undecoded
      case Some(messages) => Decoded(messages)
  }

  /** The second result is a raised exception. */
  function Handle<M>(v: View<M>, r: Reading<M>): (View<M>, bool) {
    match r
    case Undecoded => (v, true)
    case Response(error, messages) => (HandOn(SetState(EvaluateHandshake(v, error), Connected), messages), false)
    case Decoded(messages) => (OnMessages(v, messages), false)
  }

  /** The receive loop ends with an exception it does not take for a close. */
  function ReceiveError<M>(v: View<M>): View<M> {
    OnSocketError(v.(clientLive := false))
  }

  function ReceiveReading<M>(v: View<M>, r: Reading<M>): View<M> {
    var (u, raised) := Handle(v, r);
    if raised then ReceiveError(u) else u
  }

  /** The receive loop ends because the peer closed the connection. */
  function ConnectionLost<M>(v: View<M>, connects: bool): View<M> {
    OnSocketClose(v.(clientLive := false), connects)
  }

  /** Sending raises `OSError` or `SocketClosedError`. */
  function SendFailed<M>(v: View<M>, connects: bool): View<M> {
    var u := v.(handshakeReceived := false);
    if !u.hasHandler then SetState(u, Disconnected) else HandleReconnect(u, connects)
  }

  // ---- Runs ----

  /** The atomic steps of a transport; the user, the network and the server choose among them. */
  datatype Action =
    | UserStarts(connects: bool)
    | UserStops(connects: bool)
    | ClientOpens
    | FrameArrives(raw: string)
    | PeerCloses(connects: bool)
    | ReceiveFails
    | SendFails(connects: bool)
    | ServerSaysClose(connects: bool)

  function Step<M>(codec: Codec<M>, v: View<M>, a: Action): View<M> {
    match a
    case UserStarts(connects) => Start(v, connects)
    case UserStops(connects) => Stop(v, connects)
    case ClientOpens => OnSocketOpen(v)
    case FrameArrives(raw) => ReceiveReading(v, ReadRaw(codec, v.handshakeReceived, raw))
    case PeerCloses(connects) => ConnectionLost(v, connects)
    case ReceiveFails => ReceiveError(v)
    case SendFails(connects) => SendFailed(v, connects)
    case ServerSaysClose(connects) => Dispose(v, connects)
  }

  function Run<M>(codec: Codec<M>, v: View<M>, actions: seq<Action>): View<M>
    decreases |actions|
  {
    if actions == [] then v else Run(codec, Step(codec, v, actions[0]), actions[1..])
  }

  /** The state a log leads to. */
  function StateAfter<M>(log: seq<Event<M>>): State {
    if log == [] then Disconnected
    else if log[|log| - 1].Moved? then log[|log| - 1].to
    else StateAfter(log[..|log| - 1])
  }

  predicate IsCallback<M>(e: Event<M>) {
    e.OnOpen? || e.OnClose? || e.OnReconnect?
  }

  /** The callback that has to follow a log at once. */
  function Due<M>(log: seq<Event<M>>): seq<Event<M>> {
    if log != [] && log[|log| - 1].Moved? then Callback(log[|log| - 1].from, log[|log| - 1].to) else []
  }

  ghost predicate MoveFits<M>(before: seq<Event<M>>, e: Event<M>)
    requires e.Moved?
  {
    && e.from == StateAfter(before) != e.to
    && (e.to == Connecting ==> before != [] && before[|before| - 1] == Started)
    && (e.to == Reconnecting ==> Stopped !in before)
  }

  /** What may follow a log: the callback that is due, and no other callback. */
  ghost predicate Fits<M>(before: seq<Event<M>>, e: Event<M>) {
    && (if Due(before) != [] then [e] == Due(before) else !IsCallback(e))
    && (e.Moved? ==> MoveFits(before, e))
  }

  ghost predicate FitsAt<M>(log: seq<Event<M>>, i: nat)
    requires i < |log|
  {
    Fits(log[..i], log[i])
  }

  /** The callback language. */
  ghost predicate WellLogged<M>(log: seq<Event<M>>) {
    forall i :: 0 <= i < |log| ==> FitsAt(log, i)
  }

  ghost predicate Consistent<M>(v: View<M>) {
    && WellLogged(v.log)
    && Due(v.log) == []
    && v.state == StateAfter(v.log)
    && (v.manuallyClosing <==> Stopped in v.log)
  }

  lemma LogOne<M>(log: seq<Event<M>>, e: Event<M>)
    requires WellLogged(log) && Fits(log, e)
    ensures WellLogged(log + [e])
  {
    var longer := log + [e];
    forall i | 0 <= i < |longer|
      ensures FitsAt(longer, i)
    {
      if i < |log| {
        assert FitsAt(log, i);
        CutLeft(log, [e], i);
      } else {
        CutMiddle(log, [e]);
      }
    }
  }

  lemma StateAfterOne<M>(log: seq<Event<M>>, e: Event<M>)
    ensures StateAfter(log + [e]) == if e.Moved? then e.to else StateAfter(log)
    ensures Due(log + [e]) == if e.Moved? then Callback(e.from, e.to) else []
  {
    CutMiddle(log, [e]);
  }

  /** An event that is neither a state change nor a callback can be logged whenever none is due. */
  lemma LoggedKeeps<M>(v: View<M>, e: Event<M>)
    requires Consistent(v) && !e.Moved? && !IsCallback(e)
    ensures Consistent(v.(log := v.log + [e], manuallyClosing := v.manuallyClosing || e == Stopped))
  {
    LogOne(v.log, e);
    StateAfterOne(v.log, e);
    assert (v.log + [e])[|v.log|] == e;
    assert Stopped in v.log + [e] <==> Stopped in v.log || e == Stopped;
  }

  lemma MoveLogged<M>(log: seq<Event<M>>, to: State)
    requires WellLogged(log) && Due(log) == [] && StateAfter(log) != to
    requires MoveFits(log, Moved(StateAfter(log), to))
    ensures var longer := log + [Moved(StateAfter(log), to)] + Callback(StateAfter(log), to);
            && WellLogged(longer) && Due(longer) == [] && StateAfter(longer) == to
            && (Stopped in longer <==> Stopped in log)
  {
    var move: Event<M> := Moved(StateAfter(log), to);
    var callback := Callback<M>(StateAfter(log), to);
    var moved := log + [move];
    LogOne(log, move);
    StateAfterOne(log, move);
    assert Stopped in moved <==> Stopped in log;
    if callback == [] {
      Empty(moved);
    } else {
      assert callback == [callback[0]];
      LogOne(moved, callback[0]);
      StateAfterOne(moved, callback[0]);
      assert Stopped in moved + callback <==> Stopped in moved;
    }
  }

  lemma SetStateKeeps<M>(v: View<M>, s: State)
    requires Consistent(v)
    requires s == Connecting && v.state != Connecting ==> v.log != [] && v.log[|v.log| - 1] == Started
    requires s == Reconnecting ==> !v.manuallyClosing
    ensures Consistent(SetState(v, s))
  {
    if s != v.state {
      MoveLogged(v.log, s);
    }
  }

  lemma ReconnectKeeps<M>(v: View<M>, connects: bool)
    requires Consistent(v)
    ensures Consistent(HandleReconnect(v, connects))
  {
    if !v.manuallyClosing {
      SetStateKeeps(v, Reconnecting);
    }
  }

  lemma SocketCloseKeeps<M>(v: View<M>, connects: bool)
    requires Consistent(v)
    ensures Consistent(OnSocketClose(v, connects))
  {
    SetStateKeeps(v, Disconnected);
    ReconnectKeeps(v, connects);
  }

  lemma StopKeeps<M>(v: View<M>, connects: bool)
    requires Consistent(v)
    ensures Consistent(Stop(v, connects))
  {
    if !v.manuallyClosing && v.state != Disconnected {
      LoggedKeeps(v, Stopped);
      var u := v.(manuallyClosing := true, handshakeReceived := false, log := v.log + [Stopped]);
      SocketCloseKeeps(u.(checkerRunning := false, clientLive := false), connects);
    }
  }

  lemma EvaluateKeeps<M>(v: View<M>, error: Option<string>)
    requires Consistent(v)
    ensures Consistent(EvaluateHandshake(v, error))
  {
    if IsAccepted(error) {
      SetStateKeeps(v.(handshakeReceived := true), Connected);
    } else {
      SetStateKeeps(v, Disconnected);
      StopKeeps(OnSocketError(v), false);
    }
  }

  lemma HandOnKeeps<M>(v: View<M>, messages: seq<M>)
    requires Consistent(v)
    ensures Consistent(OnMessages(v, messages)) && Consistent(HandOn(v, messages))
  {
    LoggedKeeps(v, Batch(messages));
    Empty(v.log);
  }

  lemma HandshakeKeeps<M>(v: View<M>, error: Option<string>, messages: seq<M>)
    requires Consistent(v)
    ensures Consistent(HandOn(SetState(EvaluateHandshake(v, error), Connected), messages))
  {
    EvaluateKeeps(v, error);
    var u := EvaluateHandshake(v, error);
    SetStateKeeps(u, Connected);
    HandOnKeeps(SetState(u, Connected), messages);
  }

  lemma HandleKeeps<M>(v: View<M>, r: Reading<M>)
    requires Consistent(v)
    ensures Consistent(Handle(v, r).0)
  {
    match r
    case Undecoded =>
    case Response(error, messages) => HandshakeKeeps(v, error, messages);
    case Decoded(messages) => HandOnKeeps(v, messages);
  }

  lemma StartKeeps<M>(v: View<M>, connects: bool)
    requires Consistent(v)
    ensures Consistent(Start(v, connects))
  {
    LoggedKeeps(v, Started);
    SetStateKeeps(v.(log := v.log + [Started]), Connecting);
  }

  lemma SendFailedKeeps<M>(v: View<M>, connects: bool)
    requires Consistent(v)
    ensures Consistent(SendFailed(v, connects))
  {
    SetStateKeeps(v.(handshakeReceived := false), Disconnected);
    ReconnectKeeps(v.(handshakeReceived := false), connects);
  }

  lemma ReceiveReadingKeeps<M>(v: View<M>, r: Reading<M>)
    requires Consistent(v)
    ensures Consistent(ReceiveReading(v, r))
  {
    HandleKeeps(v, r);
    SetStateKeeps(Handle(v, r).0.(clientLive := false), Disconnected);
  }

  /** Every step keeps the callback language. */
  lemma StepKeeps<M>(codec: Codec<M>, v: View<M>, a: Action)
    requires Consistent(v)
    ensures Consistent(Step(codec, v, a))
  {
    match a
    case UserStarts(connects) => StartKeeps(v, connects);
    case UserStops(connects) => StopKeeps(v, connects);
    case ClientOpens =>
    case FrameArrives(raw) => ReceiveReadingKeeps(v, ReadRaw(codec, v.handshakeReceived, raw));
    case PeerCloses(connects) => SocketCloseKeeps(v.(clientLive := false), connects);
    case ReceiveFails => SetStateKeeps(v.(clientLive := false), Disconnected);
    case SendFails(connects) => SendFailedKeeps(v, connects);
    case ServerSaysClose(connects) =>
      SocketCloseKeeps(v.(checkerRunning := false, clientLive := false), connects);
  }

  lemma {:induction false} RunKeeps<M>(codec: Codec<M>, v: View<M>, actions: seq<Action>)
    requires Consistent(v)
    ensures Consistent(Run(codec, v, actions))
    decreases |actions|
  {
    if actions != [] {
      StepKeeps(codec, v, actions[0]);
      RunKeeps(codec, Step(codec, v, actions[0]), actions[1..]);
    }
  }

  /** A new transport. */
  function Fresh<M>(hasHandler: bool): View<M> {
    View(Disconnected, false, false, hasHandler, false, false, [])
  }

  function LogOf<M>(codec: Codec<M>, hasHandler: bool, actions: seq<Action>): seq<Event<M>> {
    Run(codec, Fresh<M>(hasHandler), actions).log
  }

  /** Every run of a new transport stays in the callback language, and no callback is left out at its end. */
  lemma RunsAreWellLogged<M>(codec: Codec<M>, hasHandler: bool, actions: seq<Action>)
    ensures WellLogged(LogOf(codec, hasHandler, actions)) && Due(LogOf(codec, hasHandler, actions)) == []
  {
    RunKeeps(codec, Fresh<M>(hasHandler), actions);
  }

  /** A state that is reached between two places of a log is entered between them. */
  lemma {:induction false} Entered<M>(log: seq<Event<M>>, a: nat, b: nat, s: State) returns (k: nat)
    requires a <= b <= |log|
    requires StateAfter(log[..a]) != s && StateAfter(log[..b]) == s
    ensures a <= k < b && log[k].Moved? && log[k].to == s
    decreases b
  {
    assert log[..b][..b - 1] == log[..b - 1];
    if log[b - 1].Moved? {
      k := b - 1;
    } else {
      k := Entered(log, a, b - 1, s);
    }
  }

  /** A callback stands right behind its state change. */
  lemma CallbackFollowsMove<M>(log: seq<Event<M>>, i: nat)
    requires WellLogged(log) && i < |log| && IsCallback(log[i])
    ensures i > 0 && log[i - 1].Moved?
    ensures [log[i]] == Callback(log[i - 1].from, log[i - 1].to)
    ensures StateAfter(log[..i - 1]) == log[i - 1].from
    ensures StateAfter(log[..i + 1]) == log[i - 1].to
  {
    var before := log[..i];
    assert FitsAt(log, i);
    assert before[|before| - 1] == log[i - 1];
    assert FitsAt(log, i - 1);
    assert log[..i + 1][..i] == before;
  }

  lemma OpenEntersConnected<M>(log: seq<Event<M>>, i: nat)
    requires WellLogged(log) && i < |log| && log[i] == OnOpen
    ensures i > 0 && StateAfter(log[..i - 1]) == Connecting && StateAfter(log[..i + 1]) == Connected
  {
    CallbackFollowsMove(log, i);
    assert Callback<M>(log[i - 1].from, log[i - 1].to)[0] == OnOpen;
  }

  lemma CloseEntersDisconnected<M>(log: seq<Event<M>>, i: nat)
    requires WellLogged(log) && i < |log| && log[i] == OnClose
    ensures i > 0 && StateAfter(log[..i + 1]) == Disconnected
    ensures StateAfter(log[..i - 1]) == Connected || StateAfter(log[..i - 1]) == Reconnecting
  {
    CallbackFollowsMove(log, i);
    assert Callback<M>(log[i - 1].from, log[i - 1].to)[0] == OnClose;
  }

  lemma ConnectingIsStarted<M>(log: seq<Event<M>>, k: nat)
    requires WellLogged(log) && k < |log| && log[k].Moved? && log[k].to == Connecting
    ensures k > 0 && log[k - 1] == Started
  {
    assert FitsAt(log, k);
    assert log[..k][k - 1] == log[k - 1];
  }

  lemma OpensAreApart<M>(log: seq<Event<M>>, i: nat, j: nat)
    requires WellLogged(log) && i < j < |log| && log[i] == OnOpen && log[j] == OnOpen
    ensures exists k :: i < k < j && log[k] == Started
  {
    OpenEntersConnected(log, i);
    OpenEntersConnected(log, j);
    if j == i + 1 {
      CallbackFollowsMove(log, j);
    } else {
      var k := Entered(log, i + 1, j - 1, Connecting);
      ConnectingIsStarted(log, k);
      assert i < k - 1 < j;
    }
  }

  /** In every run, two on_open are separated by a start of the user. */
  lemma OpensAreSeparatedByStarts<M>(codec: Codec<M>, hasHandler: bool, actions: seq<Action>, i: nat, j: nat)
    requires i < j < |LogOf(codec, hasHandler, actions)|
    requires LogOf(codec, hasHandler, actions)[i] == OnOpen
    requires LogOf(codec, hasHandler, actions)[j] == OnOpen
    ensures exists k :: i < k < j && LogOf(codec, hasHandler, actions)[k] == Started
  {
    RunsAreWellLogged(codec, hasHandler, actions);
    OpensAreApart(LogOf(codec, hasHandler, actions), i, j);
  }

  predicate Enters<M>(e: Event<M>, states: set<State>) {
    e.Moved? && e.to in states
  }

  lemma ClosesAreApart<M>(log: seq<Event<M>>, i: nat, j: nat)
    requires WellLogged(log) && i < j < |log| && log[i] == OnClose && log[j] == OnClose
    ensures exists k :: i < k < j && Enters(log[k], {Connected, Reconnecting})
  {
    CloseEntersDisconnected(log, i);
    CloseEntersDisconnected(log, j);
    if j == i + 1 {
      CallbackFollowsMove(log, j);
    } else {
      var k := Entered(log, i + 1, j - 1, StateAfter(log[..j - 1]));
      assert Enters(log[k], {Connected, Reconnecting});
    }
  }

  /** In every run, two on_close are separated by a move to connected or reconnecting. */
  lemma ClosesAreSeparated<M>(codec: Codec<M>, hasHandler: bool, actions: seq<Action>, i: nat, j: nat)
    requires i < j < |LogOf(codec, hasHandler, actions)|
    requires LogOf(codec, hasHandler, actions)[i] == OnClose
    requires LogOf(codec, hasHandler, actions)[j] == OnClose
    ensures exists k :: i < k < j && Enters(LogOf(codec, hasHandler, actions)[k], {Connected, Reconnecting})
  {
    RunsAreWellLogged(codec, hasHandler, actions);
    ClosesAreApart(LogOf(codec, hasHandler, actions), i, j);
  }

  lemma ReturnsFire<M>(log: seq<Event<M>>, i: nat)
    requires WellLogged(log) && Due(log) == [] && i < |log|
    ensures log[i] == OnReconnect <==> i > 0 && log[i - 1] == Moved(Reconnecting, Connected)
    ensures log[i] == Moved(Reconnecting, Connected) ==> i + 1 < |log|
  {
    assert FitsAt(log, i);
    if i > 0 {
      assert log[..i][i - 1] == log[i - 1];
      if log[i] == OnReconnect {
        assert Callback<M>(log[i - 1].from, log[i - 1].to)[0] == OnReconnect;
      }
    }
  }

  /**
   In every run, on_reconnect fires exactly behind a move from reconnecting to connected: behind
   each such move, and nowhere else.
   */
  lemma ReconnectFiresOnReturn<M>(codec: Codec<M>, hasHandler: bool, actions: seq<Action>, i: nat)
    requires i < |LogOf(codec, hasHandler, actions)|
    ensures var log := LogOf(codec, hasHandler, actions);
            && (log[i] == OnReconnect ==> i > 0 && log[i - 1] == Moved(Reconnecting, Connected))
            && (log[i] == Moved(Reconnecting, Connected) ==> i + 1 < |log| && log[i + 1] == OnReconnect)
  {
    RunsAreWellLogged(codec, hasHandler, actions);
    var log := LogOf(codec, hasHandler, actions);
    ReturnsFire(log, i);
    if i + 1 < |log| {
      ReturnsFire(log, i + 1);
    }
  }

  /** In every run, once the user has stopped the transport it never reconnects again. */
  lemma NoReconnectAfterStop<M>(codec: Codec<M>, hasHandler: bool, actions: seq<Action>, i: nat, j: nat)
    requires i < j < |LogOf(codec, hasHandler, actions)|
    requires LogOf(codec, hasHandler, actions)[i] == Stopped
    ensures !Enters(LogOf(codec, hasHandler, actions)[j], {Reconnecting})
  {
    RunsAreWellLogged(codec, hasHandler, actions);
    StoppedStays(LogOf(codec, hasHandler, actions), i, j);
  }

  // ---- The laws of the callback language ----

  /** Two on_open have a start of the user between them. */
  ghost predicate OpensSeparated<M>(log: seq<Event<M>>) {
    forall i, j :: 0 <= i < j < |log| && log[i] == OnOpen && log[j] == OnOpen
                   ==> exists k :: i < k < j && log[k] == Started
  }

  /** Two on_close have an entry into connected or reconnecting between them. */
  ghost predicate ClosesSeparated<M>(log: seq<Event<M>>) {
    forall i, j :: 0 <= i < j < |log| && log[i] == OnClose && log[j] == OnClose
                   ==> exists k :: i < k < j && Enters(log[k], {Connected, Reconnecting})
  }

  /** on_reconnect stands behind each move from reconnecting to connected, and nowhere else. */
  ghost predicate ReturnsFireOnReconnect<M>(log: seq<Event<M>>) {
    && (forall i :: 0 <= i < |log| && log[i] == OnReconnect ==> i > 0 && log[i - 1] == Moved(Reconnecting, Connected))
    && (forall i :: 0 <= i < |log| && log[i] == Moved(Reconnecting, Connected) ==>
          i + 1 < |log| && log[i + 1] == OnReconnect)
  }

  /** Nothing enters reconnecting behind a stop. */
  ghost predicate NoReturnAfterStop<M>(log: seq<Event<M>>) {
    forall i, j :: 0 <= i < j < |log| && log[i] == Stopped ==> !Enters(log[j], {Reconnecting})
  }

  ghost predicate Lawful<M>(log: seq<Event<M>>) {
    OpensSeparated(log) && ClosesSeparated(log) && ReturnsFireOnReconnect(log) && NoReturnAfterStop(log)
  }

  lemma StoppedStays<M>(log: seq<Event<M>>, i: nat, j: nat)
    requires WellLogged(log) && i < j < |log| && log[i] == Stopped
    ensures !Enters(log[j], {Reconnecting})
  {
    assert FitsAt(log, j);
    assert log[..j][i] == Stopped;
  }

  lemma WellLoggedIsLawful<M>(log: seq<Event<M>>)
    requires WellLogged(log) && Due(log) == []
    ensures Lawful(log)
  {
    forall i, j | 0 <= i < j < |log| && log[i] == OnOpen && log[j] == OnOpen
      ensures exists k :: i < k < j && log[k] == Started
    {
      OpensAreApart(log, i, j);
    }
    forall i, j | 0 <= i < j < |log| && log[i] == OnClose && log[j] == OnClose
      ensures exists k :: i < k < j && Enters(log[k], {Connected, Reconnecting})
    {
      ClosesAreApart(log, i, j);
    }
    forall i | 0 <= i < |log| && log[i] == OnReconnect
      ensures i > 0 && log[i - 1] == Moved(Reconnecting, Connected)
    {
      ReturnsFire(log, i);
    }
    forall i | 0 <= i < |log| && log[i] == Moved(Reconnecting, Connected)
      ensures i + 1 < |log| && log[i + 1] == OnReconnect
    {
      ReturnsFire(log, i);
      ReturnsFire(log, i + 1);
    }
    forall i, j | 0 <= i < j < |log| && log[i] == Stopped
      ensures !Enters(log[j], {Reconnecting})
    {
      StoppedStays(log, i, j);
    }
  }

  // ---- What an operation calls back ----

  /** The callbacks of a log, in order. */
  function Callbacks<M>(log: seq<Event<M>>): seq<Event<M>> {
    if log == [] then []
    else (if IsCallback(log[0]) then [log[0]] else []) + Callbacks(log[1..])
  }

  lemma {:induction false} CallbacksAppend<M>(a: seq<Event<M>>, b: seq<Event<M>>)
    ensures Callbacks(a + b) == Callbacks(a) + Callbacks(b)
  {
    if a == [] {
      Empty(b);
      Empty(Callbacks(b));
    } else {
      CutLeft(a, b, 1);
      CallbacksAppend(a[1..], b);
      Assoc(if IsCallback(a[0]) then [a[0]] else [], Callbacks(a[1..]), Callbacks(b));
    }
  }

  lemma FiresNothing<M>(e: Event<M>)
    requires !IsCallback(e)
    ensures Callbacks([e]) == []
  {
    assert [e][1..] == [];
  }

  lemma MoveFires<M>(from: State, to: State)
    ensures Callbacks([Moved(from, to)] + Callback<M>(from, to)) == Callback(from, to)
  {
    var callback := Callback<M>(from, to);
    CallbacksAppend([Moved(from, to)], callback);
    FiresNothing<M>(Moved(from, to));
    Empty(callback);
    if callback != [] {
      assert callback == [callback[0]] && callback[1..] == [];
    }
  }

  lemma SetStateFires<M>(v: View<M>, s: State)
    ensures Callbacks(SetState(v, s).log) == Callbacks(v.log) + Callback(v.state, s)
  {
    Empty(Callbacks(v.log));
    if s != v.state {
      var logged: seq<Event<M>> := [Moved(v.state, s)] + Callback(v.state, s);
      Assoc(v.log, [Moved(v.state, s)], Callback<M>(v.state, s));
      CallbacksAppend(v.log, logged);
      MoveFires<M>(v.state, s);
    }
  }

  lemma LoggedFires<M>(log: seq<Event<M>>, e: Event<M>)
    requires !IsCallback(e)
    ensures Callbacks(log + [e]) == Callbacks(log)
  {
    CallbacksAppend(log, [e]);
    FiresNothing(e);
    Empty(Callbacks(log));
  }

  /** What the end of a connection calls back: on_close iff it ends a state the user was told of. */
  function Closing<M>(from: State, to: State): seq<Event<M>> {
    if Closes(from, to) then [OnClose] else []
  }

  lemma StartFires<M>(v: View<M>, connects: bool)
    ensures Callbacks(Start(v, connects).log) == Callbacks(v.log)
  {
    LoggedFires(v.log, Started);
    SetStateFires(v.(log := v.log + [Started]), Connecting);
    Empty(Callbacks(v.log));
  }

  lemma ReconnectFires<M>(v: View<M>, connects: bool)
    ensures Callbacks(HandleReconnect(v, connects).log) == Callbacks(v.log)
  {
    SetStateFires(v, Reconnecting);
    Empty(Callbacks(v.log));
  }

  lemma SocketCloseFires<M>(v: View<M>, connects: bool)
    ensures Callbacks(OnSocketClose(v, connects).log)
            == Callbacks(v.log) + Closing(v.state, OnSocketClose(v, connects).state)
  {
    SetStateFires(v, Disconnected);
    ReconnectFires(v, connects);
    Empty(Callbacks(v.log));
  }

  lemma DisposeFires<M>(v: View<M>, connects: bool)
    ensures Callbacks(Dispose(v, connects).log) == Callbacks(v.log) + Closing(v.state, Dispose(v, connects).state)
  {
    Empty(Callbacks(v.log));
    SocketCloseFires(v.(checkerRunning := false, clientLive := false), connects);
  }

  lemma StopFires<M>(v: View<M>, connects: bool)
    ensures Callbacks(Stop(v, connects).log) == Callbacks(v.log) + Closing(v.state, Stop(v, connects).state)
  {
    Empty(Callbacks(v.log));
    LoggedFires(v.log, Stopped);
    DisposeFires(v.(manuallyClosing := true, handshakeReceived := false, log := v.log + [Stopped]), connects);
  }

  lemma StopDoesNothing<M>(v: View<M>, connects: bool)
    requires v.manuallyClosing || v.state == Disconnected
    ensures Stop(v, connects) == v
  {
  }

  lemma EvaluateFires<M>(v: View<M>, error: Option<string>)
    ensures var u := EvaluateHandshake(v, error);
            && u.state == (if IsAccepted(error) then Connected else Disconnected)
            && u.handshakeReceived == (v.handshakeReceived || IsAccepted(error))
            && Callbacks(u.log) == Callbacks(v.log) + Callback(v.state, u.state)
  {
    SetStateFires(v.(handshakeReceived := true), Connected);
    SetStateFires(v, Disconnected);
  }

  lemma SendFailedFires<M>(v: View<M>, connects: bool)
    ensures Callbacks(SendFailed(v, connects).log) == Callbacks(v.log) + Closing(v.state, SendFailed(v, connects).state)
  {
    SetStateFires(v.(handshakeReceived := false), Disconnected);
    ReconnectFires(v.(handshakeReceived := false), connects);
    Empty(Callbacks(v.log));
  }

  /** A frame that cannot be decoded, as a handshake or as hub messages. */
  predicate Undecodable<M>(codec: Codec<M>, v: View<M>, raw: string) {
    if v.handshakeReceived then Messages(codec, raw) == None else DecodeHandshake(codec, raw).Raised?
  }

  /** Such a frame ends the receive loop as any other failure does. */
  lemma UndecodableFails<M>(codec: Codec<M>, v: View<M>, raw: string)
    requires Undecodable(codec, v, raw)
    ensures Step(codec, v, FrameArrives(raw)) == Step(codec, v, ReceiveFails)
  {
    assert ReadRaw(codec, v.handshakeReceived, raw) == Undecoded;
  }

  /** A failure of the receive loop disconnects for good: nothing reconnects, and on_close fires iff the user was told. */
  lemma FailureDisconnects<M>(codec: Codec<M>, v: View<M>)
    ensures var u := Step(codec, v, ReceiveFails);
            && u.state == Disconnected && !u.clientLive && u.handshakeReceived == v.handshakeReceived
            && Callbacks(u.log) == Callbacks(v.log) + Closing(v.state, Disconnected)
  {
    SetStateFires(v.(clientLive := false), Disconnected);
  }

  // ---- Where the code does less than its callbacks promise ----

  /** A first call of stop ends disconnected iff the transport is that already or has a live client. */
  lemma StopDisconnectsIff<M>(v: View<M>, connects: bool)
    requires !v.manuallyClosing
    ensures Stop(v, connects).state == Disconnected <==> v.state == Disconnected || v.clientLive
  {
  }

  /** Such a run: the client could not connect, and the user's stop leaves the transport connecting. */
  lemma StopCanLeaveConnecting<M>(codec: Codec<M>)
    ensures Run(codec, Fresh<M>(false), [UserStarts(false), UserStops(false)]).state == Connecting
  {
    var started := Step(codec, Fresh<M>(false), UserStarts(false));
    var stopped := Step(codec, started, UserStops(false));
    assert [UserStarts(false), UserStops(false)][1..] == [UserStops(false)];
    assert Run(codec, stopped, [UserStops(false)][1..]) == stopped;
  }

  lemma SilentMove<M>(v: View<M>, s: State)
    requires s != v.state && Callback<M>(v.state, s) == []
    ensures SetState(v, s) == v.(state := s, log := v.log + [Moved(v.state, s)])
  {
    Empty(v.log + [Moved(v.state, s)]);
  }

  /** What a refused handshake logs. */
  function Refusal<M>(from: State): seq<Event<M>> {
    (if from == Disconnected then [] else [Moved(from, Disconnected)] + Callback(from, Disconnected))
    + [Moved(Disconnected, Connected)]
  }

  lemma RefusedHandshakeLog<M>(v: View<M>, error: Option<string>)
    requires !IsAccepted(error)
    ensures var u := SetState(EvaluateHandshake(v, error), Connected);
            u.state == Connected && u.handshakeReceived == v.handshakeReceived && u.log == v.log + Refusal(v.state)
  {
    var first: seq<Event<M>> := if v.state == Disconnected then []
                                else [Moved(v.state, Disconnected)] + Callback(v.state, Disconnected);
    var down := OnSocketError(v);
    assert down.log == v.log + first by {
      Empty(v.log);
      Assoc(v.log, [Moved(v.state, Disconnected)], Callback<M>(v.state, Disconnected));
    }
    SilentMove(down, Connected);
    Assoc(v.log, first, [Moved(Disconnected, Connected)]);
  }

  lemma RefusalFires<M>(from: State)
    ensures Callbacks(Refusal<M>(from)) == if Closes(from, Disconnected) then [OnClose] else []
  {
    var up: seq<Event<M>> := [Moved(Disconnected, Connected)];
    FiresNothing<M>(Moved(Disconnected, Connected));
    if from == Disconnected {
      Empty(up);
    } else {
      var down: seq<Event<M>> := [Moved(from, Disconnected)] + Callback(from, Disconnected);
      CallbacksAppend(down, up);
      MoveFires<M>(from, Disconnected);
      Empty(Callbacks(down));
    }
  }

  /**
   A handshake the server refuses leaves the transport connected, from whatever state it came:
   neither on_open nor on_reconnect fires, on_close fires iff it was connected or reconnecting,
   the messages behind the handshake are handed on, and the next frame is taken for a handshake again.
   */
  lemma RefusedHandshakeConnects<M>(codec: Codec<M>, v: View<M>, raw: string)
    requires !v.handshakeReceived && DecodeHandshake(codec, raw).Handshake?
    requires DecodeHandshake(codec, raw).error.Some? && DecodeHandshake(codec, raw).error.value != ""
    ensures var u := Step(codec, v, FrameArrives(raw));
            && u.state == Connected && !u.handshakeReceived
            && u.log == v.log + Refusal(v.state) + Batches(DecodeHandshake(codec, raw).messages)
            && Callbacks(u.log) == Callbacks(v.log) + if Closes(v.state, Disconnected) then [OnClose] else []
  {
    var messages := DecodeHandshake(codec, raw).messages;
    RefusedHandshakeLog(v, DecodeHandshake(codec, raw).error);
    CallbacksAppend(v.log + Refusal(v.state), Batches(messages));
    CallbacksAppend(v.log, Refusal(v.state));
    RefusalFires<M>(v.state);
    if |messages| > 0 {
      FiresNothing(Batch(messages));
    }
    Empty(Callbacks(v.log + Refusal(v.state)));
  }

  // ---- Grouping ----

  /** The messages of the batches of a log, in order. */
  function Handed<M>(log: seq<Event<M>>): seq<M> {
    if log == [] then [] else
    (if log[0].Batch? then log[0].messages else []) + Handed(log[1..])
  }

  lemma {:induction false} HandedAppend<M>(a: seq<Event<M>>, b: seq<Event<M>>)
    ensures Handed(a + b) == Handed(a) + Handed(b)
  {
    if a == [] {
      Empty(b);
      Empty(Handed(b));
    } else {
      CutLeft(a, b, 1);
      HandedAppend(a[1..], b);
      Assoc(if a[0].Batch? then a[0].messages else [], Handed(a[1..]), Handed(b));
    }
  }

  /** Records grouped into WebSocket messages at record boundaries. */
  function Groups(groups: seq<seq<string>>): seq<Action> {
    if groups == [] then []
    else [FrameArrives(Terminated(groups[0], RECORD_SEPARATOR))] + Groups(groups[1..])
  }

  function Flat(groups: seq<seq<string>>): seq<string> {
    if groups == [] then [] else groups[0] + Flat(groups[1..])
  }

  predicate AllRecords(groups: seq<seq<string>>) {
    forall g :: g in groups ==> AreRecords(g)
  }

  function MessagesOf<M>(codec: Codec<M>, records: seq<string>): seq<M> {
    match LoadAll(codec, records)
    case None => []
    case Some(messages) => messages
  }

  /** One batch for each group. */
  function GroupBatches<M>(codec: Codec<M>, groups: seq<seq<string>>): seq<Event<M>> {
    if groups == [] then []
    else [Batch(MessagesOf(codec, groups[0]))] + GroupBatches(codec, groups[1..])
  }

  /** However the records are grouped, the batches hand on the messages of all of them, in order. */
  lemma {:induction false} GroupBatchesHandOn<M>(codec: Codec<M>, groups: seq<seq<string>>)
    requires LoadAll(codec, Flat(groups)).Some?
    ensures Handed(GroupBatches(codec, groups)) == LoadAll(codec, Flat(groups)).value
  {
    if groups != [] {
      LoadAllAppend(codec, groups[0], Flat(groups[1..]));
      GroupBatchesHandOn(codec, groups[1..]);
      ConsTail(Batch(LoadAll(codec, groups[0]).value), GroupBatches(codec, groups[1..]));
    }
  }

  lemma GroupArrives<M>(codec: Codec<M>, v: View<M>, g: seq<string>)
    requires v.handshakeReceived && AreRecords(g) && LoadAll(codec, g).Some?
    ensures Step(codec, v, FrameArrives(Terminated(g, RECORD_SEPARATOR)))
            == v.(log := v.log + [Batch(LoadAll(codec, g).value)])
  {
    RecordsOfTerminated(g);
  }

  /** After the handshake, groups of records only add their batches to the log. */
  lemma {:induction false} GroupsArrive<M>(codec: Codec<M>, v: View<M>, groups: seq<seq<string>>)
    requires v.handshakeReceived && AllRecords(groups) && LoadAll(codec, Flat(groups)).Some?
    ensures Run(codec, v, Groups(groups)) == v.(log := v.log + GroupBatches(codec, groups))
    decreases |groups|
  {
    if groups == [] {
      Empty(v.log);
    } else {
      var g, rest := groups[0], groups[1..];
      assert g in groups;
      LoadAllAppend(codec, g, Flat(rest));
      GroupArrives(codec, v, g);
      var batch: Event<M> := Batch(LoadAll(codec, g).value);
      GroupsArrive(codec, v.(log := v.log + [batch]), rest);
      ConsTail(FrameArrives(Terminated(g, RECORD_SEPARATOR)), Groups(rest));
      Assoc(v.log, [batch], GroupBatches(codec, rest));
    }
  }

  /** What an accepted handshake logs. */
  function Opening<M>(from: State): seq<Event<M>> {
    [Moved(from, Connected), if from == Connecting then OnOpen else OnReconnect]
  }

  lemma OpeningLogged<M>(v: View<M>)
    requires v.state == Connecting || v.state == Reconnecting
    ensures SetState(v, Connected) == v.(state := Connected, log := v.log + Opening(v.state))
  {
    var move: Event<M> := Moved(v.state, Connected);
    Assoc(v.log, [move], Callback<M>(v.state, Connected));
    assert [move] + Callback<M>(v.state, Connected) == Opening(v.state);
  }

  /** A handshake response without an error. */
  predicate Accepts<M>(codec: Codec<M>, response: string) {
    && IsRecord(response)
    && (response == "{}" || codec.error(response) == Some(None) || codec.error(response) == Some(Some("")))
  }

  /** An accepted handshake: connected, and with a handler the keep-alive thread runs. */
  function Opened<M>(v: View<M>): View<M> {
    v.(state := Connected, handshakeReceived := true, checkerRunning := v.checkerRunning || v.hasHandler,
       log := v.log + Opening(v.state))
  }

  lemma AcceptedHandshake<M>(codec: Codec<M>, v: View<M>, raw: string, error: Option<string>, messages: seq<M>)
    requires !v.handshakeReceived && (v.state == Connecting || v.state == Reconnecting)
    requires DecodeHandshake(codec, raw) == Handshake(error, messages) && IsAccepted(error)
    ensures Step(codec, v, FrameArrives(raw)) == HandOn(Opened(v), messages)
  {
    OpeningLogged(v.(handshakeReceived := true));
  }

  lemma HandshakeArrives<M>(codec: Codec<M>, v: View<M>, raw: string, response: string, with: seq<string>)
    requires !v.handshakeReceived && (v.state == Connecting || v.state == Reconnecting)
    requires Accepts(codec, response) && AreRecords(with) && LoadAll(codec, with).Some?
    requires raw == Terminated([response] + with, RECORD_SEPARATOR)
    ensures Step(codec, v, FrameArrives(raw)) == HandOn(Opened(v), MessagesOf(codec, with))
  {
    HandshakeThenRecords(codec, response, with);
    var error := if response == "{}" then None else codec.error(response).value;
    AcceptedHandshake(codec, v, raw, error, LoadAll(codec, with).value);
  }

  /** What a server sends behind a handshake it accepts: records with the response, and groups of records. */
  predicate Follows<M>(codec: Codec<M>, response: string, with: seq<string>, groups: seq<seq<string>>) {
    && Accepts(codec, response) && AreRecords(with) && AllRecords(groups) && LoadAll(codec, with + Flat(groups)).Some?
  }

  /** The frames of the response and of the groups. */
  function Frames(response: string, with: seq<string>, groups: seq<seq<string>>): seq<Action> {
    Groups([[response] + with] + groups)
  }

  /** The batches that hand on the messages of all records. */
  function AllBatches<M>(codec: Codec<M>, with: seq<string>, groups: seq<seq<string>>): seq<Event<M>> {
    Batches(MessagesOf(codec, with)) + GroupBatches(codec, groups)
  }

  /**
   Grouping independence: an accepted handshake and any records after it, grouped anyhow into
   WebSocket messages, first fire on_open (or on_reconnect), then hand the hub exactly the
   messages of the records, empty objects left out, in order.
   */
  lemma HandshakeThenGroups<M>(codec: Codec<M>, v: View<M>, response: string, with: seq<string>, groups: seq<seq<string>>)
    requires !v.handshakeReceived && (v.state == Connecting || v.state == Reconnecting)
    requires Follows(codec, response, with, groups)
    ensures Run(codec, v, Frames(response, with, groups))
            == Opened(v).(log := v.log + Opening(v.state) + AllBatches(codec, with, groups))
    ensures Handed(AllBatches(codec, with, groups)) == LoadAll(codec, with + Flat(groups)).value
  {
    LoadAllAppend(codec, with, Flat(groups));
    var first := LoadAll(codec, with).value;
    var raw := Terminated([response] + with, RECORD_SEPARATOR);
    var frame := FrameArrives(raw);
    HandshakeArrives(codec, v, raw, response, with);
    ConsTail([response] + with, groups);
    ConsTail(frame, Groups(groups));
    GroupsArrive(codec, Step(codec, v, frame), groups);
    Assoc(v.log + Opening(v.state), Batches(first), GroupBatches(codec, groups));
    GroupBatchesHandOn(codec, groups);
    HandedAppend(Batches(first), GroupBatches(codec, groups));
    Empty(first);
  }

  /**
   A client that has opened has its first frame taken for a handshake, whatever came before it: from
   connecting or reconnecting, the opening callback fires, and the records behind the response are handed on.
   */
  lemma OpenedThenGroups<M>(codec: Codec<M>, v: View<M>, response: string, with: seq<string>, groups: seq<seq<string>>)
    requires v.state == Connecting || v.state == Reconnecting
    requires Follows(codec, response, with, groups)
    ensures Run(codec, v, [ClientOpens] + Frames(response, with, groups))
            == Opened(v).(log := v.log + Opening(v.state) + AllBatches(codec, with, groups))
  {
    ConsTail(ClientOpens, Frames(response, with, groups));
    HandshakeThenGroups(codec, Step(codec, v, ClientOpens), response, with, groups);
  }

  /**
   A connection that is lost and comes back: reconnecting, then, with the handshake of the new client,
   connected again and on_reconnect, then the messages of all records.
   */
  lemma LostConnectionReturns<M>(codec: Codec<M>, v: View<M>, response: string, with: seq<string>, groups: seq<seq<string>>)
    requires v.hasHandler && !v.manuallyClosing && v.state != Reconnecting
    requires Follows(codec, response, with, groups)
    ensures var u := Run(codec, v, [PeerCloses(true), ClientOpens] + Frames(response, with, groups));
            && u.state == Connected && u.handshakeReceived && u.clientLive && u.checkerRunning
            && u.log == v.log + [Moved(v.state, Reconnecting)]
                        + [Moved(Reconnecting, Connected), OnReconnect] + AllBatches(codec, with, groups)
  {
    var actions := [ClientOpens] + Frames(response, with, groups);
    assert [PeerCloses(true), ClientOpens] + Frames(response, with, groups) == [PeerCloses(true)] + actions;
    ConsTail(PeerCloses(true), actions);
    SilentMove(v.(clientLive := false), Reconnecting);
    OpenedThenGroups(codec, Step(codec, v, PeerCloses(true)), response, with, groups);
  }

  // ---- Nothing is taken for hub messages before a handshake ----

  lemma {:induction false} RunOneMore<M>(codec: Codec<M>, v: View<M>, actions: seq<Action>, a: Action)
    ensures Run(codec, v, actions + [a]) == Step(codec, Run(codec, v, actions), a)
    decreases |actions|
  {
    if actions == [] {
      assert ([] + [a])[1..] == [];
    } else {
      CutLeft(actions, [a], 1);
      RunOneMore(codec, Step(codec, v, actions[0]), actions[1..], a);
    }
  }

  /** A frame that holds a handshake response without an error. */
  predicate BringsHandshake<M>(codec: Codec<M>, a: Action) {
    && a.FrameArrives? && DecodeHandshake(codec, a.raw).Handshake?
    && IsAccepted(DecodeHandshake(codec, a.raw).error)
  }

  /** An accepted handshake has come, and no client has opened and no send has failed since. */
  ghost predicate Shaken<M>(codec: Codec<M>, actions: seq<Action>, k: nat)
    requires k < |actions|
  {
    && BringsHandshake(codec, actions[k])
    && forall j :: k < j < |actions| ==> !actions[j].ClientOpens? && !actions[j].SendFails?
  }

  lemma ReadingShakes<M>(v: View<M>, r: Reading<M>)
    requires ReceiveReading(v, r).handshakeReceived
    ensures v.handshakeReceived || (r.Response? && IsAccepted(r.error))
  {
    if r.Response? {
      EvaluateFires(v, r.error);
    }
  }

  /** A step after which frames are taken for hub messages. */
  lemma HandshakeStays<M>(codec: Codec<M>, v: View<M>, a: Action)
    requires Step(codec, v, a).handshakeReceived
    ensures BringsHandshake(codec, a) || (v.handshakeReceived && !a.ClientOpens? && !a.SendFails?)
  {
    if a.FrameArrives? {
      ReadingShakes(v, ReadRaw(codec, v.handshakeReceived, a.raw));
    }
  }

  lemma ShakenOn<M>(codec: Codec<M>, before: seq<Action>, last: Action, k: nat)
    requires k < |before| && Shaken(codec, before, k) && !last.ClientOpens? && !last.SendFails?
    ensures Shaken(codec, before + [last], k)
  {
  }

  /** Over every run, frames are taken for hub messages only behind an accepted handshake of the same client. */
  lemma {:induction false} MessagesFollowHandshake<M>(codec: Codec<M>, hasHandler: bool, actions: seq<Action>)
    requires Run(codec, Fresh<M>(hasHandler), actions).handshakeReceived
    ensures exists k :: 0 <= k < |actions| && Shaken(codec, actions, k)
    decreases |actions|
  {
    var n := |actions| - 1;
    var before, last := actions[..n], actions[n];
    assert actions == before + [last];
    RunOneMore(codec, Fresh<M>(hasHandler), before, last);
    HandshakeStays(codec, Run(codec, Fresh<M>(hasHandler), before), last);
    if BringsHandshake(codec, last) {
      assert Shaken(codec, actions, n);
    } else {
      MessagesFollowHandshake(codec, hasHandler, before);
      var k :| 0 <= k < |before| && Shaken(codec, before, k);
      ShakenOn(codec, before, last, k);
    }
  }

  // ---- The transport itself ----

  class WebsocketTransport<M> {
    const codec: Codec<M>
    const hasHandler: bool
    var state: State
    var manuallyClosing: bool
    var handshakeReceived: bool
    var checkerRunning: bool
    var clientLive: bool
    var log: seq<Event<M>>

    constructor (codec: Codec<M>, hasHandler: bool)
      ensures Valid() && this.codec == codec && Snapshot() == Fresh(hasHandler)
    {
      this.codec, this.hasHandler := codec, hasHandler;
      state, manuallyClosing, handshakeReceived := Disconnected, false, false;
      checkerRunning, clientLive, log := false, false, [];
    }

    function Snapshot(): View<M>
      reads this
    {
      View(state, manuallyClosing, handshakeReceived, hasHandler, checkerRunning, clientLive, log)
    }

    /** The log is in the callback language, and state and flags are what it says. */
    ghost predicate Valid()
      reads this
    {
      Consistent(Snapshot())
    }

    /** `_set_state` */
    method ChangeState(newState: State)
      modifies this
      ensures Snapshot() == SetState(old(Snapshot()), newState)
    {
      if newState == state {
        return;
      }
      var oldState := state;
      state := newState;
      log := log + [Moved(oldState, newState)];
      Empty(log);
      if oldState == Connecting && state == Connected {
        log := log + [OnOpen];
      } else if (oldState == Connected || oldState == Reconnecting) && state == Disconnected {
        log := log + [OnClose];
      } else if oldState == Reconnecting && state == Connected {
        log := log + [OnReconnect];
      }
    }

    /** Starting fires nothing, not even when it replaces a connection the user was told of. */
    method StartTransport(connects: bool)
      modifies this
      ensures Snapshot() == Start(old(Snapshot()), connects)
      ensures state == Connecting && clientLive == connects && manuallyClosing == old(manuallyClosing)
      ensures Callbacks(log) == Callbacks(old(log))
    {
      StartFires(Snapshot(), connects);
      log := log + [Started];
      ChangeState(Connecting);
      clientLive := connects;
    }

    /** Reconnecting fires nothing, and never happens once the user has stopped the transport. */
    method Reconnect(connects: bool)
      modifies this
      ensures Snapshot() == HandleReconnect(old(Snapshot()), connects)
      ensures Callbacks(log) == Callbacks(old(log))
      ensures hasHandler && !manuallyClosing && !old(clientLive) && old(state) != Reconnecting ==>
                state == Reconnecting && clientLive == connects && log == old(log) + [Moved(old(state), Reconnecting)]
      ensures !hasHandler || manuallyClosing || old(clientLive) || old(state) == Reconnecting ==>
                Snapshot() == old(Snapshot())
    {
      ReconnectFires(Snapshot(), connects);
      if state != Reconnecting {
        SilentMove(Snapshot(), Reconnecting);
      }
      if state == Reconnecting || manuallyClosing {
        return;
      }
      if !hasHandler {
        return;
      }
      if clientLive {
        return;
      }
      ChangeState(Reconnecting);
      clientLive := connects;
    }

    /** A lost connection ends in reconnecting or disconnected, and on_close fires iff it is given up. */
    method SocketClosed(connects: bool)
      modifies this
      ensures Snapshot() == OnSocketClose(old(Snapshot()), connects)
      ensures Callbacks(log) == Callbacks(old(log)) + Closing(old(state), state)
      ensures !old(clientLive) ==> state == Reconnecting || state == Disconnected
      ensures !old(clientLive) ==>
                (state == Reconnecting <==> hasHandler && !manuallyClosing && old(state) != Reconnecting)
    {
      SocketCloseFires(Snapshot(), connects);
      if !manuallyClosing && hasHandler && state != Reconnecting {
        Reconnect(connects);
        return;
      }
      ChangeState(Disconnected);
    }

    /** Disposing of a live client is losing it: on_close fires, or a handler brings it back. */
    method DisposeTransport(connects: bool)
      modifies this
      ensures Snapshot() == Dispose(old(Snapshot()), connects)
      ensures Callbacks(log) == Callbacks(old(log)) + Closing(old(state), state)
      ensures !old(clientLive) ==> state == old(state)
      ensures old(clientLive) && old(state) != Disconnected ==>
                (state == Disconnected <==> manuallyClosing || !hasHandler || old(state) == Reconnecting)
      ensures checkerRunning == (old(checkerRunning) && old(state) == Disconnected)
    {
      DisposeFires(Snapshot(), connects);
      if state != Disconnected {
        checkerRunning := false;
        if clientLive {
          clientLive := false;
          SocketClosed(connects);
        }
      }
    }

    /** The first stop of a live client disconnects; on_close fires iff the user was told of the connection. */
    method StopTransport(connects: bool)
      modifies this
      ensures Snapshot() == Stop(old(Snapshot()), connects)
      ensures Callbacks(log) == Callbacks(old(log)) + Closing(old(state), state)
      ensures old(manuallyClosing) || old(state) == Disconnected ==> Snapshot() == old(Snapshot())
      ensures old(state) != Disconnected ==> manuallyClosing
      ensures !old(manuallyClosing) && old(state) != Disconnected ==> !handshakeReceived
      ensures !old(manuallyClosing) && old(clientLive) ==> state == Disconnected
    {
      StopFires(Snapshot(), connects);
      if manuallyClosing || state == Disconnected {
        return;
      }
      manuallyClosing := true;
      handshakeReceived := false;
      log := log + [Stopped];
      DisposeTransport(connects);
    }

    /** on_open or on_reconnect fires iff the handshake is accepted, on_close iff a connection is refused. */
    method Evaluate(error: Option<string>)
      modifies this
      ensures Snapshot() == EvaluateHandshake(old(Snapshot()), error)
      ensures state == if IsAccepted(error) then Connected else Disconnected
      ensures Callbacks(log) == Callbacks(old(log)) + Callback(old(state), state)
      ensures handshakeReceived == (old(handshakeReceived) || IsAccepted(error))
      ensures checkerRunning == (old(checkerRunning) || (hasHandler && IsAccepted(error)))
    {
      EvaluateFires(Snapshot(), error);
      if IsAccepted(error) {
        handshakeReceived := true;
        ChangeState(Connected);
        if hasHandler && !checkerRunning {
          checkerRunning := true;
        }
      } else {
        StopDoesNothing(OnSocketError(Snapshot()), false);
        ChangeState(Disconnected);
        StopTransport(false);
      }
    }

    /** A frame is decoded as a handshake response or as a batch, whichever is due. */
    method Read(raw: string) returns (r: Reading<M>)
      ensures r == ReadRaw(codec, handshakeReceived, raw)
    {
      if !handshakeReceived {
        var decoded := DecodeHandshake(codec, raw);
        return if decoded.Raised? then Undecoded else Response(decoded.error, decoded.messages);
      }
      var messages := ParseMessages(codec, raw);
      return if messages.None? then Undecoded else Decoded(messages.value);
    }

    method Receive(raw: string) returns (raised: bool)
      modifies this
      ensures (Snapshot(), raised) == Handle(old(Snapshot()), ReadRaw(codec, old(handshakeReceived), raw))
    {
      var reading := Read(raw);
      match reading
      case Undecoded =>
        return true;
      case Response(error, messages) =>
        Evaluate(error);
        ChangeState(Connected);
        Empty(log);
        if |messages| > 0 {
          log := log + [Batch(messages)];
        }
        return false;
      case Decoded(messages) =>
        log := log + [Batch(messages)];
        return false;
    }

    /** The next frame is taken for a handshake; on_close fires iff there is no handler to reconnect. */
    method SendFailure(connects: bool)
      modifies this
      ensures Snapshot() == SendFailed(old(Snapshot()), connects)
      ensures !handshakeReceived && Callbacks(log) == Callbacks(old(log)) + Closing(old(state), state)
      ensures !hasHandler ==> state == Disconnected
      ensures hasHandler ==> state == old(state) || (state == Reconnecting && !manuallyClosing)
    {
      SendFailedFires(Snapshot(), connects);
      handshakeReceived := false;
      if !hasHandler {
        ChangeState(Disconnected);
        return;
      }
      Reconnect(connects);
      Empty(Callbacks(old(log)));
    }

    /** The next frame is taken for a handshake, and nothing else changes. */
    method SocketOpened()
      modifies this`handshakeReceived
      ensures Snapshot() == OnSocketOpen(old(Snapshot())) && !handshakeReceived
    {
      handshakeReceived := false;
    }

    /** One atomic step. */
    method Act(a: Action)
      requires Valid()
      modifies this
      ensures Valid() && Snapshot() == Step(codec, old(Snapshot()), a)
    {
      StepKeeps(codec, Snapshot(), a);
      match a
      case UserStarts(connects) => StartTransport(connects);
      case UserStops(connects) => StopTransport(connects);
      case ClientOpens => SocketOpened();
      case FrameArrives(raw) =>
        var raised := Receive(raw);
        if raised {
          clientLive := false;
          ChangeState(Disconnected);
        }
      case PeerCloses(connects) =>
        clientLive := false;
        SocketClosed(connects);
      case ReceiveFails =>
        clientLive := false;
        ChangeState(Disconnected);
      case SendFails(connects) => SendFailure(connects);
      case ServerSaysClose(connects) => DisposeTransport(connects);
    }

    /** Any run of steps: the log obeys all laws of the callback language. */
    method Perform(actions: seq<Action>)
      requires Valid()
      modifies this
      ensures Valid() && Snapshot() == Run(codec, old(Snapshot()), actions)
      ensures Lawful(log)
    {
      ghost var target := Run(codec, Snapshot(), actions);
      for k := 0 to |actions|
        invariant Valid() && Run(codec, Snapshot(), actions[k..]) == target
      {
        SkipSkip(actions, k, 1);
        Act(actions[k]);
      }
      WellLoggedIsLawful(log);
    }
  }
}
