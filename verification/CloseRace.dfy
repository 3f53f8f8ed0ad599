/**
 `stop()` on the user's thread against the receive loop on its own, without a reconnection
 handler. Each read or write of a shared field is a step of its own, and any schedule may
 interleave the steps; nothing is assumed atomic beyond a single read or write.
 */
module CloseRace {
  import opened Seqs
  import opened Text
  import opened Transport

  /** How `_recv_frame` can end the receive loop. */
  datatype Failure = NoHeader | BadDescriptor | SocketClosed | OtherError

  /** What matters of a frame: an error, if it is taken for a handshake, and a Close message in it. */
  datatype Incoming = Incoming(error: bool, close: bool)

  /** Progress through `_set_state`; `was` is the value it read. */
  datatype Phase = Compare | ReadOld | Write(was: State) | Fire(was: State)

  /** `stop`, the transport's `dispose`, the client's `close` and `dispose`, `on_socket_close`. */
  datatype User =
    | StopGuard | StopGuardState | Mark | ClearHandshake | DisposeGuard
    | CheckRunning | CheckClosing | SetClosing | Halt | CloseSocket | Join | ClearClosing
    | Closing(phase: Phase)
    | UserDone

  /** Where the receive loop goes on after a `_set_state`. */
  datatype Then = ToStop(close: bool) | ToConnected(close: bool) | ToMessages(close: bool) | ToLoop | ToEnd

  /** The receive loop, with `close` once more for a Close message of the server. */
  datatype Receiver =
    | Loop | Receive | Frame(frame: Incoming) | Judge(frame: Incoming)
    | Setting(phase: Phase, target: State, next: Then)
    | StopAgain(close: bool) | StopAgainState(close: bool) | OnMessages(close: bool)
    | OwnDispose | OwnCheckRunning | OwnCheckClosing | OwnSetClosing | OwnHalt | OwnCloseSocket | OwnClearClosing
    | Failed(failure: Failure) | FirstTest(failure: Failure) | SecondTest(failure: Failure)
    | ReceiverDone

  datatype Race = Race(
    user: User,
    receiver: Receiver,
    state: State,
    manuallyClosing: bool,
    handshakeReceived: bool,
    running: bool,
    isClosing: bool,
    /** Frames the peer may still send. */
    frames: nat,
    /** Calls of on_close. */
    closes: nat,
    /** Entries into state connected, the one it starts in included. */
    entries: nat,
    /** Frames that were taken for a handshake, and those of them with an error. */
    judged: nat,
    lateErrors: nat)

  /**
   Who moves next, and for the receive loop what the network does, or that handling a frame
   raises anything: decoding it, or a callback of the hub.
   */
  datatype Choice =
    | UserMoves | ReceiverMoves
    | FrameComes(frame: Incoming) | Fails(failure: Failure) | HandlingFails(failure: Failure)

  predicate Enabled(s: Race, c: Choice) {
    match c
    case UserMoves => s.user != UserDone && (s.user == Join ==> s.receiver == ReceiverDone)
    case ReceiverMoves =>
      && s.receiver != ReceiverDone && s.receiver != Receive
      // What `stop` does on this thread otherwise is not needed: see StuckIsDone.
      && (s.receiver.StopAgainState? ==> s.state == Disconnected)
    case FrameComes(f) => s.receiver == Receive && s.frames > 0
    case Fails(e) => s.receiver == Receive
    case HandlingFails(e) => s.receiver.Frame? || s.receiver.Judge? || s.receiver.OnMessages?
  }

  /** One step of `_set_state(target)`: the phase after it, if any. */
  function NextPhase(phase: Phase, state: State, target: State): Option<Phase> {
    match phase
    case Compare => if state == target then None else Some(ReadOld)
    case ReadOld => Some(Write(state))
    case Write(was) => Some(Fire(was))
    case Fire(was) => None
  }

  /** What the step does to the transport. */
  function SetStep(s: Race, phase: Phase, target: State): Race {
    match phase
    case Write(_) => s.(state := target, entries := s.entries + if target == Connected && s.state != Connected then 1 else 0)
    case Fire(was) => s.(closes := s.closes + if Closes(was, s.state) then 1 else 0)
    case _ => s
  }

  function UserStep(s: Race): Race
    requires Enabled(s, UserMoves)
  {
    match s.user
    case StopGuard => s.(user := if s.manuallyClosing then UserDone else StopGuardState)
    case StopGuardState => s.(user := if s.state == Disconnected then UserDone else Mark)
    case Mark => s.(manuallyClosing := true, user := ClearHandshake)
    case ClearHandshake => s.(handshakeReceived := false, user := DisposeGuard)
    case DisposeGuard => s.(user := if s.state == Disconnected then UserDone else CheckRunning)
    case CheckRunning => s.(user := if s.running then CheckClosing else UserDone)
    case CheckClosing => s.(user := if s.isClosing then UserDone else SetClosing)
    case SetClosing => s.(isClosing := true, user := Halt)
    case Halt => s.(running := false, user := CloseSocket)
    case CloseSocket => s.(user := Join)
    case Join => s.(user := ClearClosing)
    case ClearClosing => s.(isClosing := false, user := Closing(Compare))
    case Closing(phase) =>
      var next := NextPhase(phase, s.state, Disconnected);
      SetStep(s, phase, Disconnected).(user := if next.None? then UserDone else Closing(next.value))
  }

  function Continue(next: Then): Receiver {
    match next
    case ToStop(close) => StopAgain(close)
    case ToConnected(close) => Setting(Compare, Connected, ToMessages(close))
    case ToMessages(close) => OnMessages(close)
    case ToLoop => Loop
    case ToEnd => ReceiverDone
  }

  /** A frame taken for a handshake: its error, or else the flag. */
  function JudgeFrame(s: Race, f: Incoming): Race {
    var t := s.(judged := s.judged + 1);
    if f.error then t.(lateErrors := s.lateErrors + 1, receiver := Setting(Compare, Disconnected, ToStop(f.close)))
    else t.(handshakeReceived := true, receiver := Setting(Compare, Connected, ToConnected(f.close)))
  }

  function ReceiverStep(s: Race): Race
    requires Enabled(s, ReceiverMoves)
  {
    match s.receiver
    case Loop => s.(receiver := if s.running then Receive else ReceiverDone)
    case Frame(f) => s.(receiver := if s.handshakeReceived then OnMessages(f.close) else Judge(f))
    case Judge(f) => JudgeFrame(s, f)
    case Setting(phase, target, next) =>
      var more := NextPhase(phase, s.state, target);
      SetStep(s, phase, target).(receiver := if more.None? then Continue(next) else Setting(more.value, target, next))
    case StopAgain(close) =>
      s.(receiver := if s.manuallyClosing then Setting(Compare, Connected, ToMessages(close)) else StopAgainState(close))
    case StopAgainState(close) => s.(receiver := Setting(Compare, Connected, ToMessages(close)))
    case OnMessages(close) => s.(receiver := if close then OwnDispose else Loop)
    case OwnDispose => s.(receiver := if s.state == Disconnected then Loop else OwnCheckRunning)
    case OwnCheckRunning => s.(receiver := if s.running then OwnCheckClosing else Loop)
    case OwnCheckClosing => s.(receiver := if s.isClosing then Loop else OwnSetClosing)
    case OwnSetClosing => s.(isClosing := true, receiver := OwnHalt)
    case OwnHalt => s.(running := false, receiver := OwnCloseSocket)
    case OwnCloseSocket => s.(receiver := OwnClearClosing)
    case OwnClearClosing => s.(isClosing := false, receiver := Setting(Compare, Disconnected, ToLoop))
    case Failed(e) => s.(running := false, receiver := FirstTest(e))
    case FirstTest(e) =>
      s.(receiver := if e != OtherError && !s.isClosing then Setting(Compare, Disconnected, ToEnd) else SecondTest(e))
    case SecondTest(e) =>
      s.(receiver := if (e == BadDescriptor || e == NoHeader) && s.isClosing then ReceiverDone
                     else Setting(Compare, Disconnected, ToEnd))
  }

  function Step(s: Race, c: Choice): Race
    requires Enabled(s, c)
  {
    match c
    case UserMoves => UserStep(s)
    case ReceiverMoves => ReceiverStep(s)
    case FrameComes(f) => s.(frames := s.frames - 1, receiver := Frame(f))
    case Fails(e) => s.(receiver := Failed(e))
    case HandlingFails(e) => s.(receiver := Failed(e))
  }

  /** A schedule each of whose choices is possible when it is made. */
  predicate Possible(s: Race, schedule: seq<Choice>)
    decreases |schedule|
  {
    schedule == [] || (Enabled(s, schedule[0]) && Possible(Step(s, schedule[0]), schedule[1..]))
  }

  function Run(s: Race, schedule: seq<Choice>): Race
    requires Possible(s, schedule)
    decreases |schedule|
  {
    if schedule == [] then s else Run(Step(s, schedule[0]), schedule[1..])
  }

  /** A transport, connected or still connecting, whose user is about to call `stop`. */
  function Begin(frames: nat, connected: bool): Race {
    Race(StopGuard, Loop, if connected then Connected else Connecting, false, connected, true, false, frames, 0,
         if connected then 1 else 0, 0, 0)
  }

  // ---- What every step keeps ----

  /** The user's thread is past the guards of `close`, and on_close is still to come. */
  predicate Committed(u: User) {
    u == Halt || u == CloseSocket || u == Join || u == ClearClosing
    || (u.Closing? && !u.phase.Fire?)
  }

  predicate Halted(u: User) {
    u == CloseSocket || u == Join || u == ClearClosing || u.Closing?
  }

  /** Every entry into connected has been made up for by a call of on_close, but for the last. */
  predicate Balanced(s: Race) {
    s.state != Reconnecting && s.closes + (if s.state == Connected then 1 else 0) == s.entries
  }

  predicate Live(s: Race) {
    Balanced(s) && s.state != Disconnected
  }

  /** Inside a `_set_state(Disconnected)` that has something to do. */
  predicate Disconnecting(s: Race, phase: Phase) {
    match phase
    case Fire(was) =>
      && s.state == Disconnected && (was == Connected || was == Connecting)
      && s.closes + (if was == Connected then 1 else 0) == s.entries
    case Write(was) => Live(s) && was == s.state
    case _ => Live(s)
  }

  /** Inside a `_set_state(Connected)`. */
  predicate Reopening(s: Race, phase: Phase) {
    && Balanced(s)
    && match phase
       case Compare => true
       case ReadOld => s.state != Connected
       case Write(was) => s.state != Connected && was == s.state
       case Fire(was) => s.state == Connected && was != Connected
  }

  /** What the place of the receive loop says about the state. */
  predicate Position(s: Race) {
    match s.receiver
    case Loop => Balanced(s)
    case Setting(phase, target, next) =>
      (match next
       case ToConnected(_) => target == Connected && Reopening(s, phase) && s.state != Disconnected
       case ToMessages(_) => target == Connected && Reopening(s, phase)
       case _ => target == Disconnected && Disconnecting(s, phase))
    case StopAgain(_) => Balanced(s) && s.state == Disconnected
    case StopAgainState(_) => Balanced(s) && s.state == Disconnected
    case _ => Live(s)
  }

  /** Once the receive loop has ended, either on_close was called or the user's thread will call it. */
  predicate Ended(s: Race) {
    if s.user.Closing? then
      Disconnecting(s, s.user.phase) || (s.user.phase == Compare && Balanced(s) && s.state == Disconnected)
    else
      Balanced(s) && (s.state == Disconnected || Committed(s.user))
  }

  predicate PlaceInv(s: Race) {
    if s.receiver == ReceiverDone then Ended(s) else Position(s)
  }

  /** The receive loop has run through its own `close`. */
  predicate ClosedItself(r: Receiver, state: State) {
    || r == OwnCloseSocket || r == OwnClearClosing || (r.Setting? && r.next == ToLoop)
    || (r == Loop && state == Disconnected)
  }

  /** The receive loop ends on its own account. */
  predicate Leaving(r: Receiver) {
    r.FirstTest? || r.SecondTest? || (r.Setting? && r.next == ToEnd) || r == ReceiverDone
  }

  predicate RunningInv(s: Race) {
    && (ClosedItself(s.receiver, s.state) || Leaving(s.receiver) ==> !s.running)
    && (!s.running ==> Halted(s.user) || ClosedItself(s.receiver, s.state) || Leaving(s.receiver))
  }

  predicate ClosingInv(s: Race) {
    && (s.user == ClearClosing || s.user.Closing? ==> s.receiver == ReceiverDone)
    && (s.isClosing ==>
          || s.user == Halt || s.user == CloseSocket || s.user == Join || s.user == ClearClosing
          || s.receiver == OwnHalt || s.receiver == OwnCloseSocket || s.receiver == OwnClearClosing)
  }

  predicate Inv(s: Race) {
    PlaceInv(s) && RunningInv(s) && ClosingInv(s)
  }

  lemma UserKeepsRunning(s: Race)
    requires Inv(s) && Enabled(s, UserMoves)
    ensures RunningInv(UserStep(s))
  {
  }

  lemma UserKeepsClosing(s: Race)
    requires Inv(s) && Enabled(s, UserMoves)
    ensures ClosingInv(UserStep(s))
  {
  }

  lemma UserMovesAlone(s: Race)
    requires Enabled(s, UserMoves) && !s.user.Closing?
    ensures var t := UserStep(s);
            && t.receiver == s.receiver && t.state == s.state
            && t.closes == s.closes && t.entries == s.entries
            && (Committed(s.user) ==> Committed(t.user))
            && (t.user.Closing? ==> t.user.phase == Compare && s.user == ClearClosing)
  {
  }

  lemma UserClosesOnce(s: Race)
    requires Inv(s) && s.user.Closing?
    ensures PlaceInv(UserStep(s))
  {
  }

  lemma UserKeepsPlace(s: Race)
    requires Inv(s) && Enabled(s, UserMoves)
    ensures PlaceInv(UserStep(s))
  {
    if s.user.Closing? {
      UserClosesOnce(s);
    } else {
      UserMovesAlone(s);
    }
  }

  lemma ReceiverKeepsRunning(s: Race)
    requires Inv(s) && Enabled(s, ReceiverMoves)
    ensures RunningInv(ReceiverStep(s))
  {
  }

  lemma ReceiverKeepsClosing(s: Race)
    requires Inv(s) && Enabled(s, ReceiverMoves)
    ensures ClosingInv(ReceiverStep(s))
  {
  }

  lemma EnteringKeepsPlace(s: Race)
    requires Inv(s) && s.receiver.Setting? && s.receiver.target == Connected
    ensures PlaceInv(ReceiverStep(s))
  {
    if s.receiver.phase.Fire? {
      EnteredKeepsPlace(s);
    }
  }

  lemma EnteredKeepsPlace(s: Race)
    requires Inv(s) && s.receiver.Setting? && s.receiver.target == Connected && s.receiver.phase.Fire?
    ensures PlaceInv(ReceiverStep(s))
  {
  }

  lemma LeavingKeepsPlace(s: Race)
    requires Inv(s) && s.receiver.Setting? && s.receiver.target == Disconnected
    ensures PlaceInv(ReceiverStep(s))
  {
    if s.receiver.phase.Fire? {
      LeftKeepsPlace(s);
    }
  }

  lemma LeftKeepsPlace(s: Race)
    requires Inv(s) && s.receiver.Setting? && s.receiver.target == Disconnected && s.receiver.phase.Fire?
    ensures PlaceInv(ReceiverStep(s))
  {
  }

  lemma SettingKeepsPlace(s: Race)
    requires Inv(s) && s.receiver.Setting?
    ensures PlaceInv(ReceiverStep(s))
  {
    if s.receiver.target == Connected {
      EnteringKeepsPlace(s);
    } else {
      LeavingKeepsPlace(s);
    }
  }

  lemma EndingKeepsPlace(s: Race)
    requires Inv(s) && (s.receiver == Loop || s.receiver.SecondTest?)
    ensures PlaceInv(ReceiverStep(s))
  {
  }

  lemma FrameKeepsPlace(s: Race)
    requires Inv(s) && (s.receiver.Frame? || s.receiver.Judge?)
    ensures PlaceInv(ReceiverStep(s))
  {
  }

  /** Inside `close` on the thread of the receive loop. */
  predicate InOwnClose(r: Receiver) {
    || r == OwnDispose || r == OwnCheckRunning || r == OwnCheckClosing || r == OwnSetClosing
    || r == OwnHalt || r == OwnCloseSocket || r == OwnClearClosing
  }

  lemma OwnCloseKeepsPlace(s: Race)
    requires Inv(s) && InOwnClose(s.receiver)
    ensures PlaceInv(ReceiverStep(s))
  {
    assert Live(s);
  }

  lemma OthersKeepPlace(s: Race)
    requires Inv(s) && Enabled(s, ReceiverMoves)
    requires || s.receiver.StopAgain? || s.receiver.StopAgainState? || s.receiver.OnMessages?
             || s.receiver.Failed? || s.receiver.FirstTest?
    ensures PlaceInv(ReceiverStep(s))
  {
  }

  lemma StepKeeps(s: Race, c: Choice)
    requires Inv(s) && Enabled(s, c)
    ensures Inv(Step(s, c))
  {
    match c
    case UserMoves =>
      UserKeepsRunning(s);
      UserKeepsClosing(s);
      UserKeepsPlace(s);
    case ReceiverMoves =>
      ReceiverKeepsRunning(s);
      ReceiverKeepsClosing(s);
      if s.receiver.Setting? {
        SettingKeepsPlace(s);
      } else if s.receiver == Loop || s.receiver.SecondTest? {
        EndingKeepsPlace(s);
      } else if s.receiver.Frame? || s.receiver.Judge? {
        FrameKeepsPlace(s);
      } else if InOwnClose(s.receiver) {
        OwnCloseKeepsPlace(s);
      } else {
        OthersKeepPlace(s);
      }
    case FrameComes(f) =>
    case Fails(e) =>
    case HandlingFails(e) =>
  }

  lemma {:induction false} RunKeeps(s: Race, schedule: seq<Choice>)
    requires Inv(s) && Possible(s, schedule)
    ensures Inv(Run(s, schedule))
    decreases |schedule|
  {
    if schedule != [] {
      StepKeeps(s, schedule[0]);
      RunKeeps(Step(s, schedule[0]), schedule[1..]);
    }
  }

  // ---- Progress ----

  /** Some choice is possible until both threads have ended: `join` never waits for ever. */
  lemma StuckIsDone(s: Race)
    requires Inv(s) && !Enabled(s, UserMoves) && !Enabled(s, ReceiverMoves) && !Enabled(s, Fails(OtherError))
    ensures s.user == UserDone && s.receiver == ReceiverDone
  {
  }

  function PhaseRank(phase: Phase): nat {
    match phase case Compare => 4 case ReadOld => 3 case Write(_) => 2 case Fire(_) => 1
  }

  function UserRank(u: User): nat {
    match u
    case StopGuard => 16
    case StopGuardState => 15
    case Mark => 14
    case ClearHandshake => 13
    case DisposeGuard => 12
    case CheckRunning => 11
    case CheckClosing => 10
    case SetClosing => 9
    case Halt => 8
    case CloseSocket => 7
    case Join => 6
    case ClearClosing => 5
    case Closing(phase) => PhaseRank(phase)
    case UserDone => 0
  }

  function ReceiverRank(r: Receiver): nat {
    match r
    case ReceiverDone => 0
    case Setting(phase, _, next) =>
      PhaseRank(phase) + (match next case ToEnd => 0 case ToLoop => 9 case ToMessages(_) => 21 case ToConnected(_) => 25 case ToStop(_) => 27)
    case SecondTest(_) => 5
    case FirstTest(_) => 6
    case Failed(_) => 7
    case Receive => 8
    case Loop => 9
    case OwnClearClosing => 14
    case OwnCloseSocket => 15
    case OwnHalt => 16
    case OwnSetClosing => 17
    case OwnCheckClosing => 18
    case OwnCheckRunning => 19
    case OwnDispose => 20
    case OnMessages(_) => 21
    case StopAgainState(_) => 26
    case StopAgain(_) => 27
    case Judge(_) => 32
    case Frame(_) => 33
  }

  /** A bound on the steps still to come. */
  function Rank(s: Race): nat {
    UserRank(s.user) + ReceiverRank(s.receiver) + 26 * s.frames
  }

  lemma UserClosingDescends(s: Race)
    requires s.user.Closing?
    ensures UserRank(UserStep(s).user) < UserRank(s.user)
  {
  }

  /** Not yet inside `close`. */
  predicate InStop(u: User) {
    u == StopGuard || u == StopGuardState || u == Mark || u == ClearHandshake || u == DisposeGuard
  }

  lemma UserStopDescends(s: Race)
    requires InStop(s.user)
    ensures UserRank(UserStep(s).user) < UserRank(s.user)
  {
  }

  lemma UserDescends(s: Race)
    requires Enabled(s, UserMoves) && !s.user.Closing? && !InStop(s.user)
    ensures UserRank(UserStep(s).user) < UserRank(s.user)
  {
  }

  lemma UserLeavesReceiver(s: Race)
    requires Enabled(s, UserMoves)
    ensures UserStep(s).receiver == s.receiver && UserStep(s).frames == s.frames
  {
  }

  lemma ReceiverMovesAlone(s: Race)
    requires Enabled(s, ReceiverMoves)
    ensures ReceiverStep(s).user == s.user && ReceiverStep(s).frames == s.frames
  {
  }

  lemma SettingDescends(s: Race)
    requires s.receiver.Setting?
    ensures ReceiverRank(ReceiverStep(s).receiver) < ReceiverRank(s.receiver)
  {
  }

  lemma OwnCloseDescends(s: Race)
    requires InOwnClose(s.receiver)
    ensures ReceiverRank(ReceiverStep(s).receiver) < ReceiverRank(s.receiver)
  {
  }

  lemma FrameDescends(s: Race)
    requires s.receiver.Frame? || s.receiver.Judge?
    ensures ReceiverRank(ReceiverStep(s).receiver) < ReceiverRank(s.receiver)
  {
  }

  lemma OthersDescend(s: Race)
    requires Enabled(s, ReceiverMoves) && !s.receiver.Setting? && !InOwnClose(s.receiver)
    requires !s.receiver.Frame? && !s.receiver.Judge?
    ensures ReceiverRank(ReceiverStep(s).receiver) < ReceiverRank(s.receiver)
  {
  }

  lemma StepDescends(s: Race, c: Choice)
    requires Enabled(s, c)
    ensures Rank(Step(s, c)) < Rank(s)
  {
    match c
    case UserMoves =>
      if s.user.Closing? {
        UserClosingDescends(s);
      } else if InStop(s.user) {
        UserStopDescends(s);
      } else {
        UserDescends(s);
      }
      UserLeavesReceiver(s);
    case ReceiverMoves =>
      ReceiverMovesAlone(s);
      if s.receiver.Setting? {
        SettingDescends(s);
      } else if InOwnClose(s.receiver) {
        OwnCloseDescends(s);
      } else if s.receiver.Frame? || s.receiver.Judge? {
        FrameDescends(s);
      } else {
        OthersDescend(s);
      }
    case FrameComes(f) =>
    case Fails(e) =>
    case HandlingFails(e) =>
  }

  lemma {:induction false} SchedulesAreBounded(s: Race, schedule: seq<Choice>)
    requires Possible(s, schedule)
    ensures |schedule| + Rank(Run(s, schedule)) <= Rank(s)
    decreases |schedule|
  {
    if schedule != [] {
      StepDescends(s, schedule[0]);
      SchedulesAreBounded(Step(s, schedule[0]), schedule[1..]);
    }
  }

  // ---- Main results ----

  /** No further choice is possible. */
  ghost predicate Finished(s: Race) {
    forall c :: !Enabled(s, c)
  }

  /**
   Under every schedule both threads end, within a bounded number of steps, the transport ends
   disconnected, and on_close is called once for every entry into connected.
   */
  lemma EveryRunCloses(frames: nat, connected: bool, schedule: seq<Choice>)
    requires Possible(Begin(frames, connected), schedule)
    ensures var s := Run(Begin(frames, connected), schedule);
            && |schedule| <= 25 + 26 * frames
            && (Finished(s) <==> s.user == UserDone && s.receiver == ReceiverDone)
            && (Finished(s) ==> s.state == Disconnected && s.closes == s.entries)
  {
    var s := Run(Begin(frames, connected), schedule);
    RunKeeps(Begin(frames, connected), schedule);
    SchedulesAreBounded(Begin(frames, connected), schedule);
    if Finished(s) {
      assert !Enabled(s, UserMoves) && !Enabled(s, ReceiverMoves) && !Enabled(s, Fails(OtherError));
      StuckIsDone(s);
    }
  }

  // ---- How often a transport enters connected ----

  /** A frame was taken for a handshake, and connected is still to be entered because of it. */
  predicate Pending(s: Race) {
    match s.receiver
    case Setting(_, _, next) => next.ToStop? || ((next.ToMessages? || next.ToConnected?) && s.state != Connected)
    case StopAgain(_) => true
    case StopAgainState(_) => true
    case _ => false
  }

  /** From connected, each late error leads back into it once. */
  predicate FromConnected(s: Race) {
    s.state != Connecting && s.entries + (if Pending(s) then 1 else 0) == 1 + s.lateErrors
  }

  /** From connecting, connected is entered iff some frame is taken for a handshake. */
  predicate FromConnecting(s: Race) {
    if s.judged == 0 then s.entries == 0 && s.state != Connected && !Pending(s)
    else s.entries + (if Pending(s) then 1 else 0) > 0
  }

  lemma UserKeepsEntries(s: Race)
    requires Inv(s) && Enabled(s, UserMoves)
    ensures UserStep(s).entries == s.entries
    ensures UserStep(s).state == s.state || (s.receiver == ReceiverDone && UserStep(s).state == Disconnected)
  {
  }

  /** A step of `_set_state` on the receive loop's thread keeps what was entered and what is pending. */
  lemma SettingKeepsEntries(s: Race)
    requires Inv(s) && s.receiver.Setting?
    ensures var t := ReceiverStep(s);
            && t.entries + (if Pending(t) then 1 else 0) == s.entries + (if Pending(s) then 1 else 0)
            && t.judged == s.judged && t.lateErrors == s.lateErrors
            && (t.state == Connecting ==> s.state == Connecting)
            && (t.state == Connected && s.state != Connected ==> Pending(s))
  {
    CountsOfOwnClose(s);
    if s.receiver.target == Connected {
      EnteringKeepsEntries(s);
    } else {
      LeavingKeepsEntries(s);
    }
  }

  lemma EnteringKeepsEntries(s: Race)
    requires Inv(s) && s.receiver.Setting? && s.receiver.target == Connected
    ensures var t := ReceiverStep(s);
            && t.entries + (if Pending(t) then 1 else 0) == s.entries + (if Pending(s) then 1 else 0)
            && (t.state == Connecting ==> s.state == Connecting)
            && (t.state == Connected && s.state != Connected ==> Pending(s))
  {
  }

  lemma LeavingKeepsEntries(s: Race)
    requires Inv(s) && s.receiver.Setting? && s.receiver.target == Disconnected
    ensures var t := ReceiverStep(s);
            && t.entries + (if Pending(t) then 1 else 0) == s.entries + (if Pending(s) then 1 else 0)
            && (t.state == Connecting ==> s.state == Connecting)
            && (t.state == Connected ==> s.state == Connected)
  {
  }

  /** A frame is judged: late errors and pending entries go together, but for the first handshake. */
  lemma JudgeKeepsEntries(s: Race)
    requires Inv(s) && s.receiver.Judge?
    ensures var t := ReceiverStep(s);
            && t.entries == s.entries && t.state == s.state && !Pending(s)
            && t.lateErrors == s.lateErrors + (if s.receiver.frame.error then 1 else 0)
            && (Pending(t) <==> s.receiver.frame.error || s.state == Connecting)
            && t.judged == s.judged + 1 && s.state != Disconnected
  {
  }

  lemma ReceiverLeavesEntries(s: Race)
    requires Inv(s) && Enabled(s, ReceiverMoves) && !s.receiver.Setting? && !s.receiver.Judge?
    ensures var t := ReceiverStep(s);
            t.entries == s.entries && t.judged == s.judged && t.lateErrors == s.lateErrors && t.state == s.state
  {
    if InOwnClose(s.receiver) {
      OwnCloseLeavesEntries(s);
    } else {
      OthersLeaveEntries(s);
    }
  }

  lemma OwnCloseLeavesEntries(s: Race)
    requires InOwnClose(s.receiver)
    ensures ReceiverStep(s).entries == s.entries && ReceiverStep(s).state == s.state
    ensures ReceiverStep(s).judged == s.judged && ReceiverStep(s).lateErrors == s.lateErrors
  {
  }

  lemma OthersLeaveEntries(s: Race)
    requires Enabled(s, ReceiverMoves) && !s.receiver.Setting? && !s.receiver.Judge? && !InOwnClose(s.receiver)
    ensures ReceiverStep(s).entries == s.entries && ReceiverStep(s).state == s.state
    ensures ReceiverStep(s).judged == s.judged && ReceiverStep(s).lateErrors == s.lateErrors
  {
  }

  lemma OwnCloseIsNotPending(s: Race)
    requires InOwnClose(s.receiver)
    ensures !Pending(ReceiverStep(s))
  {
  }

  lemma OthersKeepPending(s: Race)
    requires Inv(s) && Enabled(s, ReceiverMoves)
    requires !s.receiver.Setting? && !s.receiver.Judge? && !InOwnClose(s.receiver)
    ensures Pending(ReceiverStep(s)) == Pending(s)
  {
  }

  lemma StepKeepsEntries(s: Race, c: Choice)
    requires Inv(s) && Enabled(s, c)
    ensures FromConnected(s) ==> FromConnected(Step(s, c))
    ensures FromConnecting(s) ==> FromConnecting(Step(s, c))
  {
    match c
    case UserMoves =>
      UserKeepsEntries(s);
      CountsOfUser(s);
      UserLeavesReceiver(s);
    case ReceiverMoves =>
      if s.receiver.Setting? {
        SettingKeepsEntries(s);
      } else if s.receiver.Judge? {
        JudgeKeepsEntries(s);
      } else {
        ReceiverLeavesEntries(s);
        if InOwnClose(s.receiver) {
          OwnCloseIsNotPending(s);
        } else {
          OthersKeepPending(s);
        }
      }
    case FrameComes(f) =>
    case Fails(e) =>
    case HandlingFails(e) =>
  }

  lemma {:induction false} RunKeepsEntries(s: Race, schedule: seq<Choice>)
    requires Inv(s) && Possible(s, schedule)
    ensures FromConnected(s) ==> FromConnected(Run(s, schedule))
    ensures FromConnecting(s) ==> FromConnecting(Run(s, schedule))
    decreases |schedule|
  {
    if schedule != [] {
      StepKeeps(s, schedule[0]);
      StepKeepsEntries(s, schedule[0]);
      RunKeepsEntries(Step(s, schedule[0]), schedule[1..]);
    }
  }

  /** From connected, on_close is called once, and once more for each frame with an error taken for a handshake. */
  lemma ConnectedRunCloses(frames: nat, schedule: seq<Choice>)
    requires Possible(Begin(frames, true), schedule) && Finished(Run(Begin(frames, true), schedule))
    ensures var s := Run(Begin(frames, true), schedule);
            s.state == Disconnected && s.closes == 1 + s.lateErrors
  {
    EveryRunCloses(frames, true, schedule);
    RunKeepsEntries(Begin(frames, true), schedule);
  }

  // ---- When on_close is called, and how often ----

  /** The next step takes a frame for a handshake. */
  predicate TakesHandshake(s: Race, c: Choice) {
    c == ReceiverMoves && s.receiver.Judge?
  }

  ghost predicate HasHandshake(s: Race, schedule: seq<Choice>)
    requires Possible(s, schedule)
    decreases |schedule|
  {
    schedule != [] &&
    (TakesHandshake(s, schedule[0]) || HasHandshake(Step(s, schedule[0]), schedule[1..]))
  }

  lemma CountsOfUser(s: Race)
    requires Enabled(s, UserMoves)
    ensures UserStep(s).judged == s.judged && UserStep(s).lateErrors == s.lateErrors
  {
  }

  lemma CountsOfOwnClose(s: Race)
    requires s.receiver.Setting? || InOwnClose(s.receiver)
    ensures ReceiverStep(s).judged == s.judged && ReceiverStep(s).lateErrors == s.lateErrors
  {
  }

  lemma CountsOfOthers(s: Race)
    requires Enabled(s, ReceiverMoves) && !s.receiver.Setting? && !InOwnClose(s.receiver) && !s.receiver.Judge?
    ensures ReceiverStep(s).judged == s.judged && ReceiverStep(s).lateErrors == s.lateErrors
  {
  }

  lemma CountsOfJudge(s: Race)
    requires s.receiver.Judge?
    ensures ReceiverStep(s).judged == s.judged + 1
    ensures ReceiverStep(s).lateErrors == s.lateErrors + if s.receiver.frame.error then 1 else 0
  {
  }

  /** Only a frame that is judged counts. */
  lemma CountsOfStep(s: Race, c: Choice)
    requires Enabled(s, c)
    ensures var judges := c == ReceiverMoves && s.receiver.Judge?;
            && Step(s, c).judged == s.judged + (if judges then 1 else 0)
            && Step(s, c).lateErrors == s.lateErrors + if judges && s.receiver.frame.error then 1 else 0
  {
    match c
    case UserMoves => CountsOfUser(s);
    case ReceiverMoves =>
      if s.receiver.Judge? {
        CountsOfJudge(s);
      } else if s.receiver.Setting? || InOwnClose(s.receiver) {
        CountsOfOwnClose(s);
      } else {
        CountsOfOthers(s);
      }
    case FrameComes(f) =>
    case Fails(e) =>
    case HandlingFails(e) =>
  }

  lemma JudgedOfStep(s: Race, c: Choice)
    requires Enabled(s, c)
    ensures Step(s, c).judged == s.judged + if TakesHandshake(s, c) then 1 else 0
  {
    CountsOfStep(s, c);
  }

  lemma {:induction false} JudgedOfRun(s: Race, schedule: seq<Choice>)
    requires Possible(s, schedule)
    ensures s.judged <= Run(s, schedule).judged
    ensures Run(s, schedule).judged == s.judged <==> !HasHandshake(s, schedule)
    decreases |schedule|
  {
    if schedule != [] {
      JudgedOfStep(s, schedule[0]);
      JudgedOfRun(Step(s, schedule[0]), schedule[1..]);
    }
  }

  /** Stopped while still connecting, a transport never calls on_close iff no frame is taken for its handshake. */
  lemma ConnectingRunIsSilentIff(frames: nat, schedule: seq<Choice>)
    requires Possible(Begin(frames, false), schedule) && Finished(Run(Begin(frames, false), schedule))
    ensures Run(Begin(frames, false), schedule).closes == 0 <==> !HasHandshake(Begin(frames, false), schedule)
  {
    EveryRunCloses(frames, false, schedule);
    RunKeepsEntries(Begin(frames, false), schedule);
    JudgedOfRun(Begin(frames, false), schedule);
  }

  /** The next step takes a frame with an error for a handshake. */
  /** The user's thread has not yet cleared `handshake_received`. */
  predicate BeforeClear(u: User) {
    u == StopGuard || u == StopGuardState || u == Mark || u == ClearHandshake
  }

  /** Each handshake without an error uses up a time at which none had been received. */
  predicate FewHandshakes(s: Race, limit: nat) {
    && (s.receiver.Judge? ==> !s.handshakeReceived)
    && s.judged + (if s.handshakeReceived then 0 else 1) + (if BeforeClear(s.user) then 1 else 0) <= s.lateErrors + limit
  }

  /** A connection stays as it was until then. */
  predicate NotYetJudged(s: Race) {
    BeforeClear(s.user) ==> s.handshakeReceived && s.judged == 0
  }

  lemma FewOfUser(s: Race, limit: nat)
    requires FewHandshakes(s, limit) && Enabled(s, UserMoves)
    ensures FewHandshakes(UserStep(s), limit)
    ensures NotYetJudged(s) ==> NotYetJudged(UserStep(s))
  {
  }

  lemma FewOfJudge(s: Race, limit: nat)
    requires FewHandshakes(s, limit) && (s.receiver.Judge? || s.receiver.Frame?)
    ensures FewHandshakes(ReceiverStep(s), limit)
    ensures NotYetJudged(s) ==> NotYetJudged(ReceiverStep(s))
  {
  }

  /** What a step of the receive loop leaves alone where it does not look at a frame. */
  predicate SameHandshake(s: Race, t: Race) {
    && t.handshakeReceived == s.handshakeReceived && t.user == s.user
    && t.judged == s.judged && t.lateErrors == s.lateErrors && !t.receiver.Judge?
  }

  lemma OwnCloseLeavesHandshake(s: Race)
    requires InOwnClose(s.receiver)
    ensures SameHandshake(s, ReceiverStep(s))
  {
  }

  lemma SettingLeavesHandshake(s: Race)
    requires s.receiver.Setting?
    ensures SameHandshake(s, ReceiverStep(s))
  {
  }

  lemma OthersLeaveHandshake(s: Race)
    requires Enabled(s, ReceiverMoves) && !s.receiver.Judge? && !s.receiver.Frame?
    ensures SameHandshake(s, ReceiverStep(s))
  {
    if InOwnClose(s.receiver) {
      OwnCloseLeavesHandshake(s);
    } else if s.receiver.Setting? {
      SettingLeavesHandshake(s);
    }
  }

  lemma FewOfStep(s: Race, c: Choice, limit: nat)
    requires FewHandshakes(s, limit) && Enabled(s, c)
    ensures FewHandshakes(Step(s, c), limit)
    ensures NotYetJudged(s) ==> NotYetJudged(Step(s, c))
  {
    match c
    case UserMoves => FewOfUser(s, limit);
    case ReceiverMoves =>
      if s.receiver.Judge? || s.receiver.Frame? {
        FewOfJudge(s, limit);
      } else {
        OthersLeaveHandshake(s);
      }
    case FrameComes(f) =>
    case Fails(e) =>
    case HandlingFails(e) =>
  }

  lemma {:induction false} FewOfRun(s: Race, schedule: seq<Choice>, limit: nat)
    requires FewHandshakes(s, limit) && Possible(s, schedule)
    ensures FewHandshakes(Run(s, schedule), limit)
    ensures NotYetJudged(s) ==> NotYetJudged(Run(s, schedule))
    decreases |schedule|
  {
    if schedule != [] {
      FewOfStep(s, schedule[0], limit);
      FewOfRun(Step(s, schedule[0]), schedule[1..], limit);
    }
  }

  /**
   Under every schedule, at most one frame without an error is taken for a handshake because `stop` has
   cleared the flag, and one more when the transport was still connecting; before that, a
   connected transport takes none for one.
   */
  lemma HandshakesAreFew(frames: nat, connected: bool, schedule: seq<Choice>)
    requires Possible(Begin(frames, connected), schedule)
    ensures var s := Run(Begin(frames, connected), schedule);
            && s.judged <= s.lateErrors + (if connected then 1 else 2)
            && (connected && BeforeClear(s.user) ==> s.judged == 0)
  {
    FewOfRun(Begin(frames, connected), schedule, if connected then 1 else 2);
  }

  predicate TakesLateError(s: Race, c: Choice) {
    c == ReceiverMoves && s.receiver.Judge? && s.receiver.frame.error
  }

  ghost predicate HasLateError(s: Race, schedule: seq<Choice>)
    requires Possible(s, schedule)
    decreases |schedule|
  {
    schedule != [] &&
    (TakesLateError(s, schedule[0]) || HasLateError(Step(s, schedule[0]), schedule[1..]))
  }

  lemma LateErrorsOfStep(s: Race, c: Choice)
    requires Enabled(s, c)
    ensures Step(s, c).lateErrors == s.lateErrors + if TakesLateError(s, c) then 1 else 0
  {
    CountsOfStep(s, c);
  }

  lemma {:induction false} LateErrorsOfRun(s: Race, schedule: seq<Choice>)
    requires Possible(s, schedule)
    ensures s.lateErrors <= Run(s, schedule).lateErrors
    ensures Run(s, schedule).lateErrors == s.lateErrors <==> !HasLateError(s, schedule)
    decreases |schedule|
  {
    if schedule != [] {
      LateErrorsOfStep(s, schedule[0]);
      LateErrorsOfRun(Step(s, schedule[0]), schedule[1..]);
    }
  }

  /** A run to the end calls on_close exactly once iff it takes no frame with an error for a handshake. */
  lemma ClosesExactlyOnceIff(frames: nat, schedule: seq<Choice>)
    requires Possible(Begin(frames, true), schedule) && Finished(Run(Begin(frames, true), schedule))
    ensures Run(Begin(frames, true), schedule).closes == 1 <==> !HasLateError(Begin(frames, true), schedule)
  {
    ConnectedRunCloses(frames, schedule);
    LateErrorsOfRun(Begin(frames, true), schedule);
  }

  /** Such a frame can come: `stop` clears the handshake flag before it ends the receive loop. */
  lemma LateErrorCanCome() returns (schedule: seq<Choice>)
    ensures Possible(Begin(1, true), schedule) && TakesLateError(Run(Begin(1, true), schedule), ReceiverMoves)
    ensures Run(Begin(1, true), schedule)
            == Race(DisposeGuard, Judge(Incoming(true, false)), Connected, true, false, true, false, 0, 0, 1, 0, 0)
  {
    var f := Incoming(true, false);
    var s4 := Race(DisposeGuard, Loop, Connected, true, false, true, false, 1, 0, 1, 0, 0);
    var toJudge: seq<Choice> := LateErrorFrom(s4, f);
    var s3 := s4.(user := ClearHandshake, handshakeReceived := true);
    var s2 := s3.(user := Mark, manuallyClosing := false);
    var s1 := s2.(user := StopGuardState);
    ConsRuns(s3, UserMoves, toJudge);
    ConsRuns(s2, UserMoves, [UserMoves] + toJudge);
    ConsRuns(s1, UserMoves, [UserMoves] + ([UserMoves] + toJudge));
    ConsRuns(Begin(1, true), UserMoves, [UserMoves] + ([UserMoves] + ([UserMoves] + toJudge)));
    schedule := [UserMoves] + ([UserMoves] + ([UserMoves] + ([UserMoves] + toJudge)));
  }

  lemma LateErrorFrom(s: Race, f: Incoming) returns (schedule: seq<Choice>)
    requires s.receiver == Loop && s.running && s.frames > 0 && !s.handshakeReceived && f.error
    ensures Possible(s, schedule) && TakesLateError(Run(s, schedule), ReceiverMoves)
    ensures Run(s, schedule) == s.(receiver := Judge(f), frames := s.frames - 1)
  {
    var s1 := s.(receiver := Receive);
    var s2 := s.(receiver := Frame(f), frames := s.frames - 1);
    ConsRuns(s2, ReceiverMoves, []);
    ConsRuns(s1, FrameComes(f), [ReceiverMoves] + []);
    ConsRuns(s, ReceiverMoves, [FrameComes(f)] + ([ReceiverMoves] + []));
    schedule := [ReceiverMoves] + ([FrameComes(f)] + ([ReceiverMoves] + []));
  }

  /** From every state in the middle of a run the threads can be scheduled to their end. */
  lemma {:induction false} Completes(s: Race) returns (schedule: seq<Choice>)
    requires Inv(s)
    ensures Possible(s, schedule) && Finished(Run(s, schedule))
    decreases Rank(s)
  {
    var c := if Enabled(s, UserMoves) then UserMoves
             else if Enabled(s, ReceiverMoves) then ReceiverMoves else Fails(OtherError);
    if Enabled(s, c) {
      StepKeeps(s, c);
      StepDescends(s, c);
      var rest := Completes(Step(s, c));
      ConsRuns(s, c, rest);
      schedule := [c] + rest;
    } else {
      StuckIsDone(s);
      schedule := [];
    }
  }

  lemma {:induction false} RunsJoin(s: Race, a: seq<Choice>, b: seq<Choice>)
    requires Possible(s, a) && Possible(Run(s, a), b)
    ensures Possible(s, a + b) && Run(s, a + b) == Run(Run(s, a), b)
    decreases |a|
  {
    if a == [] {
      Empty(b);
    } else {
      RunsJoin(Step(s, a[0]), a[1..], b);
      Uncons(a);
      Assoc([a[0]], a[1..], b);
      ConsRuns(s, a[0], a[1..] + b);
    }
  }

  /** The frames that are still to be judged, and those judged late. */
  function Budget(s: Race): nat {
    s.lateErrors + s.frames + if s.receiver.Frame? || s.receiver.Judge? then 1 else 0
  }

  lemma BudgetOfReceiver(s: Race)
    requires Enabled(s, ReceiverMoves)
    ensures Budget(ReceiverStep(s)) <= Budget(s)
  {
    ReceiverMovesAlone(s);
    LateErrorsOfStep(s, ReceiverMoves);
  }

  lemma BudgetOfStep(s: Race, c: Choice)
    requires Enabled(s, c)
    ensures Budget(Step(s, c)) <= Budget(s)
  {
    match c
    case UserMoves =>
      CountsOfUser(s);
      UserLeavesReceiver(s);
    case ReceiverMoves => BudgetOfReceiver(s);
    case FrameComes(f) =>
    case Fails(e) =>
    case HandlingFails(e) =>
  }

  lemma {:induction false} BudgetOfRun(s: Race, schedule: seq<Choice>)
    requires Possible(s, schedule)
    ensures Budget(Run(s, schedule)) <= Budget(s)
    decreases |schedule|
  {
    if schedule != [] {
      BudgetOfStep(s, schedule[0]);
      BudgetOfRun(Step(s, schedule[0]), schedule[1..]);
    }
  }

  /** A run to the end, with a single frame, in which on_close is called twice. */
  lemma ClosesTwice() returns (schedule: seq<Choice>)
    ensures Possible(Begin(1, true), schedule) && Finished(Run(Begin(1, true), schedule))
    ensures Run(Begin(1, true), schedule).closes == 2
  {
    var early := LateErrorCanCome();
    var s := Run(Begin(1, true), early);
    RunKeeps(Begin(1, true), early);
    StepKeeps(s, ReceiverMoves);
    var late := Completes(Step(s, ReceiverMoves));
    ConsRuns(s, ReceiverMoves, late);
    RunsJoin(Begin(1, true), early, [ReceiverMoves] + late);
    schedule := early + ([ReceiverMoves] + late);
    LateErrorsOfStep(s, ReceiverMoves);
    LateErrorsOfRun(Step(s, ReceiverMoves), late);
    BudgetOfRun(Begin(1, true), schedule);
    ConnectedRunCloses(1, schedule);
  }

  // ---- A stop that is lost ----

  /** Between the on_close of a late error and the return to connected. */
  predicate InLateError(r: Receiver) {
    match r
    case Setting(_, _, next) => next.ToStop? || next.ToMessages?
    case StopAgain(_) => true
    case StopAgainState(_) => true
    case _ => false
  }

  /** The user's thread has returned from `stop`, and the receive loop goes on. */
  predicate StopLost(s: Race) {
    s.user == UserDone && s.running
  }

  /**
   The guards of `stop` and `dispose` take a transport for disconnected that is on its way back to
   connected: `stop` is lost there iff the receive loop is in the middle of a late error.
   */
  lemma StopIsLostIff(s: Race)
    requires Inv(s) && (s.user == StopGuardState || s.user == DisposeGuard)
    ensures StopLost(UserStep(s)) <==> s.running && s.state == Disconnected
    ensures StopLost(UserStep(s)) ==> InLateError(s.receiver)
  {
  }

  /** The receive loop moves alone from one state to another. */
  predicate Leads(s: Race, schedule: seq<Choice>, t: Race) {
    Possible(s, schedule) && Run(s, schedule) == t
  }

  lemma LeadsFirst(s: Race, c: Choice, schedule: seq<Choice>, t: Race)
    requires Enabled(s, c) && Leads(Step(s, c), schedule, t)
    ensures Leads(s, [c] + schedule, t)
  {
    ConsRuns(s, c, schedule);
  }

  /** The guards of `dispose` and of the client's own `close`, on the thread of the receive loop. */
  lemma OwnGuards(s: Race) returns (schedule: seq<Choice>)
    requires s.receiver == OnMessages(true) && s.state != Disconnected && s.running && !s.isClosing
    ensures forall c :: c in schedule ==> c == ReceiverMoves
    ensures Leads(s, schedule, s.(receiver := OwnSetClosing))
  {
    var t := s.(receiver := OwnSetClosing);
    LeadsFirst(s.(receiver := OwnCheckClosing), ReceiverMoves, [], t);
    var m0: seq<Choice> := [ReceiverMoves] + [];
    LeadsFirst(s.(receiver := OwnCheckRunning), ReceiverMoves, m0, t);
    var m1 := [ReceiverMoves] + m0;
    LeadsFirst(s.(receiver := OwnDispose), ReceiverMoves, m1, t);
    var m2 := [ReceiverMoves] + m1;
    LeadsFirst(s, ReceiverMoves, m2, t);
    schedule := [ReceiverMoves] + m2;
  }

  lemma OwnClose(s: Race) returns (schedule: seq<Choice>)
    requires s.receiver == OwnSetClosing && !s.isClosing
    ensures forall c :: c in schedule ==> c == ReceiverMoves
    ensures Leads(s, schedule, s.(receiver := Setting(Compare, Disconnected, ToLoop), running := false))
  {
    var t := s.(receiver := Setting(Compare, Disconnected, ToLoop), running := false);
    var halted := s.(running := false, isClosing := true);
    var m0: seq<Choice> := [ReceiverMoves] + [];
    LeadsFirst(halted.(receiver := OwnClearClosing), ReceiverMoves, [], t);
    LeadsFirst(halted.(receiver := OwnCloseSocket), ReceiverMoves, m0, t);
    var m1 := [ReceiverMoves] + m0;
    LeadsFirst(s.(isClosing := true, receiver := OwnHalt), ReceiverMoves, m1, t);
    var m2 := [ReceiverMoves] + m1;
    LeadsFirst(s, ReceiverMoves, m2, t);
    schedule := [ReceiverMoves] + m2;
  }

  /** A state change to disconnected, undisturbed. */
  function Down(s: Race, next: Then): Race {
    s.(receiver := Continue(next), state := Disconnected,
       closes := s.closes + if Closes(s.state, Disconnected) then 1 else 0)
  }

  lemma GoesDown(s: Race, next: Then) returns (schedule: seq<Choice>)
    requires s.receiver == Setting(Compare, Disconnected, next) && s.state != Disconnected
    ensures forall c :: c in schedule ==> c == ReceiverMoves
    ensures Leads(s, schedule, Down(s, next))
  {
    var t := Down(s, next);
    LeadsFirst(s.(receiver := Setting(Fire(s.state), Disconnected, next), state := Disconnected), ReceiverMoves, [], t);
    var m0: seq<Choice> := [ReceiverMoves] + [];
    LeadsFirst(s.(receiver := Setting(Write(s.state), Disconnected, next)), ReceiverMoves, m0, t);
    var m1 := [ReceiverMoves] + m0;
    LeadsFirst(s.(receiver := Setting(ReadOld, Disconnected, next)), ReceiverMoves, m1, t);
    var m2 := [ReceiverMoves] + m1;
    LeadsFirst(s, ReceiverMoves, m2, t);
    schedule := [ReceiverMoves] + m2;
  }

  /** Then the state change, and the end of the loop. */
  lemma OwnEnd(s: Race) returns (schedule: seq<Choice>)
    requires s.receiver == Setting(Compare, Disconnected, ToLoop) && s.state != Disconnected && !s.running
    ensures forall c :: c in schedule ==> c == ReceiverMoves
    ensures Leads(s, schedule, Down(s, ToEnd))
  {
    var down := GoesDown(s, ToLoop);
    LeadsFirst(Down(s, ToLoop), ReceiverMoves, [], Down(s, ToEnd));
    RunsJoin(s, down, [ReceiverMoves] + []);
    schedule := down + ([ReceiverMoves] + []);
  }

  /** The client is closing, and the failure is one that closing its socket brings about. */
  predicate Expected(s: Race, e: Failure) {
    s.isClosing && (e == BadDescriptor || e == NoHeader)
  }

  /**
   A failure of the receive loop, undisturbed by the user: the loop ends, quietly if the failure is
   expected while closing, and otherwise disconnected, with on_close iff the transport was connected.
   */
  lemma FailureEnds(s: Race, e: Failure) returns (schedule: seq<Choice>)
    requires s.receiver == Failed(e) && s.state != Disconnected
    ensures forall c :: c in schedule ==> c == ReceiverMoves
    ensures Leads(s, schedule, if Expected(s, e) then s.(receiver := ReceiverDone, running := false)
                               else Down(s.(running := false), ToEnd))
  {
    var halted := s.(running := false);
    var tests: seq<Choice>;
    if Expected(s, e) {
      var t := halted.(receiver := ReceiverDone);
      LeadsFirst(halted.(receiver := SecondTest(e)), ReceiverMoves, [], t);
      var m0: seq<Choice> := [ReceiverMoves] + [];
      LeadsFirst(halted.(receiver := FirstTest(e)), ReceiverMoves, m0, t);
      tests := [ReceiverMoves] + m0;
      LeadsFirst(s, ReceiverMoves, tests, t);
    } else {
      tests := TestsGoDown(halted.(receiver := FirstTest(e)), e);
      LeadsFirst(s, ReceiverMoves, tests, Down(halted, ToEnd));
    }
    schedule := [ReceiverMoves] + tests;
  }

  lemma TestsGoDown(s: Race, e: Failure) returns (schedule: seq<Choice>)
    requires s.receiver == FirstTest(e) && s.state != Disconnected && !Expected(s, e)
    ensures forall c :: c in schedule ==> c == ReceiverMoves
    ensures Leads(s, schedule, Down(s, ToEnd))
  {
    var setting := s.(receiver := Setting(Compare, Disconnected, ToEnd));
    var down := GoesDown(setting, ToEnd);
    schedule := [ReceiverMoves] + down;
    if e != OtherError && !s.isClosing {
      LeadsFirst(s, ReceiverMoves, down, Down(s, ToEnd));
    } else {
      LeadsFirst(s.(receiver := SecondTest(e)), ReceiverMoves, down, Down(s, ToEnd));
      LeadsFirst(s, ReceiverMoves, schedule, Down(s, ToEnd));
      schedule := [ReceiverMoves] + schedule;
    }
  }

  /**
   A Close message of the server, undisturbed by the user: the receive loop disconnects and ends by
   itself, and on_close is called iff the transport was connected.
   */
  lemma CloseMessageEnds(s: Race) returns (schedule: seq<Choice>)
    requires s.receiver == OnMessages(true) && s.state != Disconnected && s.running && !s.isClosing
    ensures forall c :: c in schedule ==> c == ReceiverMoves
    ensures Leads(s, schedule, Down(s.(running := false), ToEnd))
  {
    var guards := OwnGuards(s);
    var down := OwnClose(s.(receiver := OwnSetClosing));
    var closed := s.(receiver := Setting(Compare, Disconnected, ToLoop), running := false);
    var up := OwnEnd(closed);
    RunsJoin(s, guards, down);
    RunsJoin(s, guards + down, up);
    schedule := guards + down + up;
  }

  /** From the judgement of a late error to the write of disconnected. */
  lemma ToDisconnected(s: Race, f: Incoming) returns (schedule: seq<Choice>)
    requires s.receiver == Judge(f) && f.error && s.state == Connected
    ensures Leads(s, schedule, s.(receiver := Setting(Fire(Connected), Disconnected, ToStop(f.close)),
                                  state := Disconnected, judged := s.judged + 1, lateErrors := s.lateErrors + 1))
  {
    var s1 := s.(judged := s.judged + 1, lateErrors := s.lateErrors + 1,
                 receiver := Setting(Compare, Disconnected, ToStop(f.close)));
    var s2 := s1.(receiver := Setting(ReadOld, Disconnected, ToStop(f.close)));
    var s3 := s1.(receiver := Setting(Write(Connected), Disconnected, ToStop(f.close)));
    var t := s1.(receiver := Setting(Fire(Connected), Disconnected, ToStop(f.close)), state := Disconnected);
    LeadsFirst(s3, ReceiverMoves, [], t);
    LeadsFirst(s2, ReceiverMoves, [ReceiverMoves] + [], t);
    LeadsFirst(s1, ReceiverMoves, [ReceiverMoves] + ([ReceiverMoves] + []), t);
    LeadsFirst(s, ReceiverMoves, [ReceiverMoves] + ([ReceiverMoves] + ([ReceiverMoves] + [])), t);
    schedule := [ReceiverMoves] + ([ReceiverMoves] + ([ReceiverMoves] + ([ReceiverMoves] + [])));
  }

  /** From there to the entry into connected. */
  lemma ToReopening(s: Race) returns (schedule: seq<Choice>)
    requires s.receiver == Setting(Fire(Connected), Disconnected, ToStop(false)) && s.state == Disconnected && s.manuallyClosing
    ensures Leads(s, schedule, s.(receiver := Setting(Compare, Connected, ToMessages(false)), closes := s.closes + 1))
  {
    var s1 := s.(receiver := StopAgain(false), closes := s.closes + 1);
    var t := s1.(receiver := Setting(Compare, Connected, ToMessages(false)));
    LeadsFirst(s1, ReceiverMoves, [], t);
    LeadsFirst(s, ReceiverMoves, [ReceiverMoves] + [], t);
    schedule := [ReceiverMoves] + ([ReceiverMoves] + []);
  }

  /** From there back to connected. */
  lemma BackToConnected(s: Race) returns (schedule: seq<Choice>)
    requires s.receiver == Setting(Compare, Connected, ToMessages(false)) && s.state == Disconnected
    ensures Leads(s, schedule, s.(receiver := Setting(Fire(Disconnected), Connected, ToMessages(false)),
                                  state := Connected, entries := s.entries + 1))
  {
    var s1 := s.(receiver := Setting(ReadOld, Connected, ToMessages(false)));
    var s2 := s.(receiver := Setting(Write(Disconnected), Connected, ToMessages(false)));
    var t := s.(receiver := Setting(Fire(Disconnected), Connected, ToMessages(false)), state := Connected,
                entries := s.entries + 1);
    LeadsFirst(s2, ReceiverMoves, [], t);
    LeadsFirst(s1, ReceiverMoves, [ReceiverMoves] + [], t);
    LeadsFirst(s, ReceiverMoves, [ReceiverMoves] + ([ReceiverMoves] + []), t);
    schedule := [ReceiverMoves] + ([ReceiverMoves] + ([ReceiverMoves] + []));
  }

  /** And on to the next read. */
  lemma ToNextRead(s: Race) returns (schedule: seq<Choice>)
    requires s.receiver == Setting(Fire(Disconnected), Connected, ToMessages(false)) && s.state == Connected && s.running
    ensures Leads(s, schedule, s.(receiver := Receive))
  {
    var s1 := s.(receiver := OnMessages(false));
    var s2 := s.(receiver := Loop);
    var t := s.(receiver := Receive);
    LeadsFirst(s2, ReceiverMoves, [], t);
    LeadsFirst(s1, ReceiverMoves, [ReceiverMoves] + [], t);
    LeadsFirst(s, ReceiverMoves, [ReceiverMoves] + ([ReceiverMoves] + []), t);
    schedule := [ReceiverMoves] + ([ReceiverMoves] + ([ReceiverMoves] + []));
  }

  /** The user's thread reads the state in the middle of the late error. */
  lemma LoseStop(s: Race) returns (schedule: seq<Choice>)
    requires s.user == DisposeGuard && s.receiver == Judge(Incoming(true, false))
    requires s.state == Connected && s.running && s.manuallyClosing
    ensures Possible(s, schedule)
    ensures var t := Run(s, schedule);
            StopLost(t) && t.manuallyClosing && t.receiver == Receive && t.state == Connected
  {
    var down := ToDisconnected(s, Incoming(true, false));
    var s1 := Run(s, down);
    var s2 := s1.(user := UserDone);
    var up := ToReopening(s2);
    var s3 := Run(s2, up);
    var back := BackToConnected(s3);
    var on := ToNextRead(Run(s3, back));
    RunsJoin(s3, back, on);
    RunsJoin(s2, up, back + on);
    ConsRuns(s1, UserMoves, up + (back + on));
    RunsJoin(s, down, [UserMoves] + (up + (back + on)));
    schedule := down + ([UserMoves] + (up + (back + on)));
  }

  /** A run in which that happens: the user's thread has ended, and the loop waits for the next frame. */
  lemma StopIsLost() returns (schedule: seq<Choice>)
    ensures Possible(Begin(1, true), schedule)
    ensures var s := Run(Begin(1, true), schedule);
            StopLost(s) && s.manuallyClosing && s.receiver == Receive && s.state == Connected
  {
    var early := LateErrorCanCome();
    var s := Run(Begin(1, true), early);
    var late := LoseStop(s);
    RunsJoin(Begin(1, true), early, late);
    schedule := early + late;
  }

  lemma ConsRuns(s: Race, c: Choice, schedule: seq<Choice>)
    requires Enabled(s, c) && Possible(Step(s, c), schedule)
    ensures Possible(s, [c] + schedule) && Run(s, [c] + schedule) == Run(Step(s, c), schedule)
  {
    ConsTail(c, schedule);
  }
}
