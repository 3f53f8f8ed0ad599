/** The thread that sends a ping when nothing has been sent for a while. Times are in seconds. */
module KeepAlive {
  /**
   A call of the transport's `send`, by the user or by the checker as a ping: the time at which it
   was decided on, the time at which it was through, and whether the message got out.
   */
  datatype Send = Send(decided: real, at: real, ping: bool, ok: bool)

  /** `lastTry` is the time of the last send, whether it got out or not. */
  datatype Checker = Checker(
    keepAliveInterval: real,
    sleep: real,
    lastMessage: real,
    lastRun: real,
    lastTry: real,
    sent: seq<Send>)

  /**
   What happens next: the user sends, or the loop wakes up. It wakes up at `now`, the user sends at
   the times `between`, and it is through at `ended`, when a ping, if there is one, has been sent
   or, if not `ok`, has failed.
   */
  datatype Event =
    | UserSends(at: real, ok: bool)
    | WakesUp(now: real, between: seq<(real, bool)>, ended: real, ok: bool)

  /** Only a message that got out counts for `last_message`. */
  function Transmit(c: Checker, s: Send): Checker {
    c.(lastMessage := if s.ok then s.at else c.lastMessage, lastTry := s.at, sent := c.sent + [s])
  }

  function TransmitAll(c: Checker, sends: seq<(real, bool)>): Checker
    decreases |sends|
  {
    if sends == [] then c
    else TransmitAll(Transmit(c, Send(sends[0].0, sends[0].0, false, sends[0].1)), sends[1..])
  }

  /** The iteration gets past the test of `last_run`. */
  predicate Due(c: Checker, now: real) {
    now - c.lastRun >= c.sleep
  }

  /** The decision to ping is made on the time and the `last_message` at the start of the iteration. */
  predicate Pings(c: Checker, now: real) {
    Due(c, now) && c.keepAliveInterval < now - c.lastMessage
  }

  function Next(c: Checker, e: Event): Checker {
    match e
    case UserSends(at, ok) => Transmit(c, Send(at, at, false, ok))
    case WakesUp(now, between, ended, ok) =>
      var d := TransmitAll(c, between);
      var f := if Pings(c, now) then Transmit(d, Send(now, ended, true, ok)) else d;
      if Due(c, now) then f.(lastRun := ended) else f
  }

  function After(c: Checker, events: seq<Event>): Checker
    decreases |events|
  {
    if events == [] then c else After(Next(c, events[0]), events[1..])
  }

  /** A checker made at `now`. */
  function Fresh(keepAliveInterval: real, sleep: real, now: real): Checker {
    Checker(keepAliveInterval, sleep, now, now, now, [])
  }

  class ConnectionStateChecker {
    const keepAliveInterval: real
    const sleep: real
    var lastMessage: real
    var lastRun: real
    ghost var lastTry: real
    ghost var sent: seq<Send>

    constructor (keepAliveInterval: real, sleep: real, now: real)
      ensures Snapshot() == Fresh(keepAliveInterval, sleep, now)
    {
      this.keepAliveInterval, this.sleep := keepAliveInterval, sleep;
      lastMessage, lastRun := now, now;
      lastTry, sent := now, [];
    }

    ghost function Snapshot(): Checker
      reads this
    {
      Checker(keepAliveInterval, sleep, lastMessage, lastRun, lastTry, sent)
    }

    /** `send` of the transport. */
    method SendMessage(s: Send)
      modifies this
      ensures Snapshot() == Transmit(old(Snapshot()), s)
      ensures lastRun == old(lastRun) && sent == old(sent) + [s]
    {
      if s.ok {
        lastMessage := s.at;
      }
      lastTry, sent := s.at, sent + [s];
    }

    /** What the user's threads send meanwhile. */
    method UserMessages(sends: seq<(real, bool)>)
      modifies this
      ensures Snapshot() == TransmitAll(old(Snapshot()), sends)
      ensures lastRun == old(lastRun) && |sent| == |old(sent)| + |sends|
    {
      ghost var start := Snapshot();
      for k := 0 to |sends|
        invariant TransmitAll(Snapshot(), sends[k..]) == TransmitAll(start, sends)
        invariant lastRun == old(lastRun) && |sent| == |old(sent)| + k
      {
        assert sends[k..][1..] == sends[k + 1..];
        SendMessage(Send(sends[k].0, sends[k].0, false, sends[k].1));
      }
    }

    /** One iteration; the other threads run between its tests and its ping. */
    method Iterate(now: real, between: seq<(real, bool)>, ended: real, ok: bool)
      modifies this
      ensures Snapshot() == Next(old(Snapshot()), WakesUp(now, between, ended, ok))
      ensures lastRun == if now - old(lastRun) < sleep then old(lastRun) else ended
      ensures |sent| == |old(sent)| + |between|
                        + if now - old(lastRun) >= sleep && keepAliveInterval < now - old(lastMessage) then 1 else 0
    {
      if now - lastRun < sleep {
        UserMessages(between);
        return;
      }
      var timeWithoutMessages := now - lastMessage;
      UserMessages(between);
      if keepAliveInterval < timeWithoutMessages {
        SendMessage(Send(now, ended, true, ok));
      }
      lastRun := ended;
    }

    /** The loop, for as long as the events last. */
    method Run(events: seq<Event>)
      modifies this
      ensures Snapshot() == After(old(Snapshot()), events)
    {
      ghost var start := Snapshot();
      for k := 0 to |events|
        invariant After(Snapshot(), events[k..]) == After(start, events)
      {
        assert events[k..][1..] == events[k + 1..];
        match events[k]
        case UserSends(at, ok) => SendMessage(Send(at, at, false, ok));
        case WakesUp(now, between, ended, ok) => Iterate(now, between, ended, ok);
      }
    }
  }

  // ---- Time ----

  function Start(e: Event): real {
    match e case UserSends(at, _) => at case WakesUp(now, _, _, _) => now
  }

  function End(e: Event): real {
    match e case UserSends(at, _) => at case WakesUp(_, _, ended, _) => ended
  }

  /** Sends one after the other from `from` on, the last no later than `to`. */
  predicate SendsInOrder(from: real, sends: seq<(real, bool)>, to: real)
    decreases |sends|
  {
    if sends == [] then from <= to else from <= sends[0].0 && SendsInOrder(sends[0].0, sends[1..], to)
  }

  /** The events follow one another in time. */
  predicate InOrder(from: real, events: seq<Event>)
    decreases |events|
  {
    events == [] ||
    (&& from <= Start(events[0])
     && SendsInOrder(Start(events[0]), if events[0].WakesUp? then events[0].between else [], End(events[0]))
     && InOrder(End(events[0]), events[1..]))
  }

  // ---- What the two times say ----

  /** The time of the last send, or the start. */
  function LastTry(sent: seq<Send>, start: real): real {
    if sent == [] then start else sent[|sent| - 1].at
  }

  /** The time of the last message that got out, or the start. */
  function LastOk(sent: seq<Send>, start: real): real {
    if sent == [] then start
    else if sent[|sent| - 1].ok then sent[|sent| - 1].at
    else LastOk(sent[..|sent| - 1], start)
  }

  predicate SaysLast(c: Checker, start: real) {
    c.lastMessage == LastOk(c.sent, start) && c.lastTry == LastTry(c.sent, start)
  }

  lemma TransmitSaysLast(c: Checker, start: real, s: Send)
    requires SaysLast(c, start)
    ensures SaysLast(Transmit(c, s), start)
  {
    assert (c.sent + [s])[..|c.sent|] == c.sent;
  }

  lemma {:induction false} BetweenSaysLast(c: Checker, start: real, sends: seq<(real, bool)>)
    requires SaysLast(c, start)
    ensures SaysLast(TransmitAll(c, sends), start)
    decreases |sends|
  {
    if sends != [] {
      var s := Send(sends[0].0, sends[0].0, false, sends[0].1);
      TransmitSaysLast(c, start, s);
      BetweenSaysLast(Transmit(c, s), start, sends[1..]);
    }
  }

  lemma {:induction false} TimesSayLastFrom(c: Checker, start: real, events: seq<Event>)
    requires SaysLast(c, start)
    ensures SaysLast(After(c, events), start)
    decreases |events|
  {
    if events != [] {
      match events[0] {
        case UserSends(at, ok) => TransmitSaysLast(c, start, Send(at, at, false, ok));
        case WakesUp(now, between, ended, ok) =>
          BetweenSaysLast(c, start, between);
          TransmitSaysLast(TransmitAll(c, between), start, Send(now, ended, true, ok));
      }
      TimesSayLastFrom(Next(c, events[0]), start, events[1..]);
    }
  }

  /** Over every run, `last_message` is the time of the last message that got out; sends that fail leave it alone. */
  lemma LastMessageIsLastOk(keepAliveInterval: real, sleep: real, now: real, events: seq<Event>)
    ensures var c := After(Fresh(keepAliveInterval, sleep, now), events);
            c.lastMessage == LastOk(c.sent, now) && c.lastTry == LastTry(c.sent, now)
  {
    TimesSayLastFrom(Fresh(keepAliveInterval, sleep, now), now, events);
  }

  // ---- No early ping ----

  /** When a ping was decided on, a message of that time was further back than the interval. */
  predicate PingIsLate(interval: real, ping: Send, message: Send) {
    message.at >= ping.decided || ping.decided - message.at > interval
  }

  /**
   Every ping was decided on more than the interval after the start, and after every message
   that had got out by then.
   */
  predicate PingsAreLate(interval: real, start: real, sent: seq<Send>) {
    && (forall k :: 0 <= k < |sent| && sent[k].ping ==> sent[k].decided - start > interval)
    && (forall j, k :: 0 <= j < k < |sent| && sent[k].ping && sent[j].ok ==> PingIsLate(interval, sent[k], sent[j]))
  }

  /** `last_message` is not before the start, nor before any message that got out, nor after `now`. */
  predicate Recorded(c: Checker, start: real, now: real) {
    && start <= c.lastMessage <= now
    && (forall k :: 0 <= k < |c.sent| && c.sent[k].ok ==> c.sent[k].at <= c.lastMessage)
  }

  lemma UserSendIsRecorded(c: Checker, start: real, now: real, s: Send)
    requires Recorded(c, start, now) && now <= s.at && !s.ping && PingsAreLate(c.keepAliveInterval, start, c.sent)
    ensures Recorded(Transmit(c, s), start, s.at)
    ensures PingsAreLate(c.keepAliveInterval, start, Transmit(c, s).sent)
  {
  }

  /** What sends in the middle of an iteration leave alone: what was sent before, and all they add is late. */
  predicate Extends(c: Checker, d: Checker, from: real) {
    && c.sent <= d.sent && c.keepAliveInterval == d.keepAliveInterval
    && (forall k :: |c.sent| <= k < |d.sent| ==> d.sent[k].at >= from)
  }

  lemma {:induction false} BetweenIsRecorded(c: Checker, start: real, now: real, sends: seq<(real, bool)>, to: real)
    requires Recorded(c, start, now) && SendsInOrder(now, sends, to)
    requires PingsAreLate(c.keepAliveInterval, start, c.sent)
    ensures var d := TransmitAll(c, sends);
            && Recorded(d, start, to) && Extends(c, d, now)
            && PingsAreLate(c.keepAliveInterval, start, d.sent)
            && d.lastRun == c.lastRun && d.sleep == c.sleep
    decreases |sends|
  {
    if sends != [] {
      var s := Send(sends[0].0, sends[0].0, false, sends[0].1);
      UserSendIsRecorded(c, start, now, s);
      BetweenIsRecorded(Transmit(c, s), start, sends[0].0, sends[1..], to);
    }
  }

  /** A ping decided on before the sends of `d` beyond those of `c`. */
  lemma PingIsRecorded(c: Checker, d: Checker, start: real, decided: real, ping: Send)
    requires Recorded(c, start, decided) && Extends(c, d, decided) && Recorded(d, start, ping.at)
    requires PingsAreLate(c.keepAliveInterval, start, d.sent)
    requires ping.ping && ping.decided == decided && decided - c.lastMessage > c.keepAliveInterval
    ensures Recorded(Transmit(d, ping), start, ping.at)
    ensures PingsAreLate(c.keepAliveInterval, start, Transmit(d, ping).sent)
  {
    forall j | 0 <= j < |d.sent| && d.sent[j].ok
      ensures PingIsLate(c.keepAliveInterval, ping, d.sent[j])
    {
      if j < |c.sent| {
        assert d.sent[j] == c.sent[j];
      }
    }
  }

  lemma NextIsRecorded(c: Checker, start: real, from: real, e: Event)
    requires Recorded(c, start, from) && PingsAreLate(c.keepAliveInterval, start, c.sent)
    requires from <= Start(e)
    requires SendsInOrder(Start(e), if e.WakesUp? then e.between else [], End(e))
    ensures Recorded(Next(c, e), start, End(e))
    ensures PingsAreLate(c.keepAliveInterval, start, Next(c, e).sent)
    ensures Next(c, e).keepAliveInterval == c.keepAliveInterval
  {
    match e
    case UserSends(at, ok) => UserSendIsRecorded(c, start, from, Send(at, at, false, ok));
    case WakesUp(now, between, ended, ok) =>
      BetweenIsRecorded(c, start, now, between, ended);
      if Pings(c, now) {
        PingIsRecorded(c, TransmitAll(c, between), start, now, Send(now, ended, true, ok));
      }
  }

  lemma {:induction false} PingsComeLateFrom(c: Checker, start: real, from: real, events: seq<Event>)
    requires Recorded(c, start, from) && PingsAreLate(c.keepAliveInterval, start, c.sent) && InOrder(from, events)
    ensures PingsAreLate(c.keepAliveInterval, start, After(c, events).sent)
    decreases |events|
  {
    if events != [] {
      NextIsRecorded(c, start, from, events[0]);
      PingsComeLateFrom(Next(c, events[0]), start, End(events[0]), events[1..]);
    }
  }

  /**
   In every run no ping is decided on before the interval has passed since the checker was made
   and since the message before it; a later message can only have crossed the ping.
   */
  lemma PingsComeLate(keepAliveInterval: real, sleep: real, now: real, events: seq<Event>)
    requires InOrder(now, events)
    ensures PingsAreLate(keepAliveInterval, now, After(Fresh(keepAliveInterval, sleep, now), events).sent)
  {
    PingsComeLateFrom(Fresh(keepAliveInterval, sleep, now), now, now, events);
  }

  // ---- Silence is bounded ----

  /**
   The loop keeps its pace: nothing happens later than `pace` after it woke up last, and an
   iteration takes no longer than `lag`.
   */
  predicate Paced(woke: real, pace: real, lag: real, events: seq<Event>)
    decreases |events|
  {
    events == [] ||
    (&& Start(events[0]) - woke <= pace
     && End(events[0]) - Start(events[0]) <= lag
     && Paced(if events[0].WakesUp? then events[0].now else woke, pace, lag, events[1..]))
  }

  /** At no moment up to the last event is the last send further back than `bound`. */
  predicate NeverSilentFor(c: Checker, bound: real, events: seq<Event>)
    decreases |events|
  {
    events == [] ||
    (End(events[0]) - c.lastTry <= bound && NeverSilentFor(Next(c, events[0]), bound, events[1..]))
  }

  /** What holds between checks; `woke` is when the loop woke up last. */
  predicate Checked(c: Checker, woke: real, lag: real) {
    && c.lastMessage <= c.lastTry
    && c.lastRun - c.lastTry <= c.keepAliveInterval + lag
    && woke <= c.lastRun + c.sleep
  }

  function Bound(c: Checker, pace: real, lag: real): real {
    c.keepAliveInterval + c.sleep + pace + lag + lag
  }

  lemma {:induction false} BetweenKeepsTry(c: Checker, from: real, sends: seq<(real, bool)>, to: real)
    requires c.lastMessage <= c.lastTry <= from && SendsInOrder(from, sends, to)
    ensures from <= to
    ensures var d := TransmitAll(c, sends);
            && c.lastTry <= d.lastTry <= to && d.lastMessage <= d.lastTry
            && d.lastRun == c.lastRun && d.sleep == c.sleep && d.keepAliveInterval == c.keepAliveInterval
    decreases |sends|
  {
    if sends != [] {
      BetweenKeepsTry(Transmit(c, Send(sends[0].0, sends[0].0, false, sends[0].1)), sends[0].0, sends[1..], to);
    }
  }

  lemma NextKeepsChecked(c: Checker, from: real, woke: real, pace: real, lag: real, e: Event)
    requires Checked(c, woke, lag) && 0.0 <= c.sleep && 0.0 <= c.keepAliveInterval && c.lastTry <= from <= Start(e)
    requires SendsInOrder(Start(e), if e.WakesUp? then e.between else [], End(e))
    requires Start(e) - woke <= pace && End(e) - Start(e) <= lag
    ensures End(e) - c.lastTry <= Bound(c, pace, lag)
    ensures var d := Next(c, e);
            && Checked(d, if e.WakesUp? then e.now else woke, lag) && d.lastTry <= End(e)
            && d.sleep == c.sleep && d.keepAliveInterval == c.keepAliveInterval
  {
    if e.WakesUp? {
      BetweenKeepsTry(c, e.now, e.between, e.ended);
    }
  }

  lemma {:induction false} SilenceIsBoundedFrom(c: Checker, from: real, woke: real, pace: real, lag: real, events: seq<Event>)
    requires Checked(c, woke, lag) && 0.0 <= c.sleep && 0.0 <= c.keepAliveInterval && c.lastTry <= from
    requires InOrder(from, events) && Paced(woke, pace, lag, events)
    ensures NeverSilentFor(c, Bound(c, pace, lag), events)
    decreases |events|
  {
    if events != [] {
      var e := events[0];
      NextKeepsChecked(c, from, woke, pace, lag, e);
      SilenceIsBoundedFrom(Next(c, e), End(e), if e.WakesUp? then e.now else woke, pace, lag, events[1..]);
    }
  }

  /**
   From the first check on, whatever the user sends and whichever sends fail, the last send is
   never further back than the interval, the sleep and one pace of the loop, and twice the lag
   of an iteration.
   */
  lemma SilenceIsBounded(c: Checker, first: Event, pace: real, lag: real, events: seq<Event>)
    requires 0.0 <= c.sleep && 0.0 <= c.keepAliveInterval && c.lastMessage <= c.lastTry
    requires first.WakesUp? && Due(c, first.now) && first.ended <= first.now + lag
    requires InOrder(c.lastTry, [first] + events) && Paced(first.now, pace, lag, events)
    ensures NeverSilentFor(Next(c, first), Bound(c, pace, lag), events)
  {
    assert ([first] + events)[1..] == events;
    BetweenKeepsTry(c, first.now, first.between, first.ended);
    SilenceIsBoundedFrom(Next(c, first), first.ended, first.now, pace, lag, events);
  }

  /** As long as every send gets out, the last send is the last message. */
  predicate AllOk(events: seq<Event>) {
    forall e :: e in events ==> e.ok && (e.WakesUp? ==> forall s :: s in e.between ==> s.1)
  }

  lemma {:induction false} BetweenOk(c: Checker, sends: seq<(real, bool)>)
    requires c.lastTry == c.lastMessage && forall s :: s in sends ==> s.1
    ensures TransmitAll(c, sends).lastTry == TransmitAll(c, sends).lastMessage
    decreases |sends|
  {
    if sends != [] {
      assert sends[0] in sends;
      BetweenOk(Transmit(c, Send(sends[0].0, sends[0].0, false, sends[0].1)), sends[1..]);
    }
  }

  /** So without failures the bound is one on the time since `last_message`. */
  lemma {:induction false} SendsAreMessages(c: Checker, events: seq<Event>)
    requires c.lastTry == c.lastMessage && AllOk(events)
    ensures After(c, events).lastTry == After(c, events).lastMessage
    decreases |events|
  {
    if events != [] {
      var e := events[0];
      assert e in events;
      if e.WakesUp? {
        BetweenOk(c, e.between);
      }
      assert forall f :: f in events[1..] ==> f in events;
      SendsAreMessages(Next(c, e), events[1..]);
    }
  }
}
