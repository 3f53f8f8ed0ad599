/**
 A loop that reads one frame after another off a byte string until a read fails, over any way
 of reading a frame that may depend on the offset at which the frame starts.
 */
module FrameLoop {
  import opened Seqs
  import opened Text
  import opened Bits

  type pos = n: nat | n > 0 witness 1

  /** Reads the frame at the head of the bytes that start at the given offset: its message and size. */
  type Reader<!M> = (seq<byte>, nat) -> Option<(M, pos)>

  /** The bytes from `offset` on; none when a size has led past the end. */
  function From(raw: seq<byte>, offset: nat): seq<byte> {
    if offset <= |raw| then raw[offset..] else []
  }

  function ParseFrom<M>(read: Reader<M>, rest: seq<byte>, offset: nat): seq<M>
    decreases |rest|
  {
    if rest == [] then [] else
    match read(rest, offset)
    case None => []
    case Some((message, n)) => [message] + ParseFrom(read, From(rest, n), offset + n)
  }

  /** The loop at `offset` with `messages` read already will end with `target`. */
  ghost predicate Ahead<M>(read: Reader<M>, raw: seq<byte>, offset: nat, messages: seq<M>, target: seq<M>) {
    messages + ParseFrom(read, From(raw, offset), offset) == target
  }

  lemma LoopStarts<M>(read: Reader<M>, raw: seq<byte>)
    ensures Ahead(read, raw, 0, [], ParseFrom(read, raw, 0))
  {
    Empty(ParseFrom(read, raw, 0));
  }

  lemma LoopEnds<M>(read: Reader<M>, raw: seq<byte>, offset: nat, messages: seq<M>, target: seq<M>)
    requires offset >= |raw| && Ahead(read, raw, offset, messages, target)
    ensures messages == target
  {
    Empty(messages);
  }

  lemma LoopTurn<M>(read: Reader<M>, raw: seq<byte>, offset: nat, messages: seq<M>, target: seq<M>)
    requires offset < |raw| && Ahead(read, raw, offset, messages, target)
    ensures match read(From(raw, offset), offset)
            case None => messages == target
            case Some((m, n)) => Ahead(read, raw, offset + n, messages + [m], target)
  {
    match read(From(raw, offset), offset)
    case None => Empty(messages);
    case Some((m, n)) =>
      assert From(From(raw, offset), n) == From(raw, offset + n);
      Assoc(messages, [m], ParseFrom(read, From(raw, offset + n), offset + n));
  }

  /** Messages written as frames, then `tail`. */
  function StreamThen<M>(frame: M -> seq<byte>, messages: seq<M>, tail: seq<byte>): seq<byte> {
    if messages == [] then tail else frame(messages[0]) + StreamThen(frame, messages[1..], tail)
  }

  function Stream<M>(frame: M -> seq<byte>, messages: seq<M>): seq<byte> {
    StreamThen(frame, messages, [])
  }

  lemma {:induction false} StreamThenIsConcat<M>(frame: M -> seq<byte>, messages: seq<M>, tail: seq<byte>)
    ensures StreamThen(frame, messages, tail) == Stream(frame, messages) + tail
  {
    if messages == [] {
      Empty(tail);
    } else {
      StreamThenIsConcat(frame, messages[1..], tail);
      Assoc(frame(messages[0]), Stream(frame, messages[1..]), tail);
    }
  }

  /** How many messages stand before the first frame refused at its offset. */
  function Readable<M>(frame: M -> seq<byte>, refused: (M, nat) -> bool, messages: seq<M>, offset: nat): (n: nat)
    ensures n <= |messages|
  {
    if messages == [] || refused(messages[0], offset) then 0
    else 1 + Readable(frame, refused, messages[1..], offset + |frame(messages[0])|)
  }

  /** A frame is read as its message, whatever follows, except where it is refused. */
  ghost predicate ReadsBack<M>(read: Reader<M>, frame: M -> seq<byte>, refused: (M, nat) -> bool, m: M) {
    && frame(m) != []
    && (forall after, offset :: read(frame(m) + after, offset) == if refused(m, offset) then None else Some((m, |frame(m)|)))
  }

  /** The reader inverts the writer on these messages. */
  ghost predicate Inverts<M(!new)>(read: Reader<M>, frame: M -> seq<byte>, refused: (M, nat) -> bool, messages: seq<M>) {
    forall m :: m in messages ==> ReadsBack(read, frame, refused, m)
  }

  lemma ParsesOne<M>(read: Reader<M>, frame: M -> seq<byte>, refused: (M, nat) -> bool, m: M, after: seq<byte>, offset: nat)
    requires ReadsBack(read, frame, refused, m)
    ensures ParseFrom(read, frame(m) + after, offset)
            == if refused(m, offset) then [] else [m] + ParseFrom(read, after, offset + |frame(m)|)
  {
    assert read(frame(m) + after, offset) == if refused(m, offset) then None else Some((m, |frame(m)|));
    assert From(frame(m) + after, |frame(m)|) == after;
  }

  lemma InvertsTail<M(!new)>(read: Reader<M>, frame: M -> seq<byte>, refused: (M, nat) -> bool, messages: seq<M>)
    requires messages != [] && Inverts(read, frame, refused, messages)
    ensures Inverts(read, frame, refused, messages[1..])
  {
    assert forall m :: m in messages[1..] ==> m in messages;
  }

  /** The messages before the first refused one. */
  function Survivors<M>(frame: M -> seq<byte>, refused: (M, nat) -> bool, messages: seq<M>, offset: nat): seq<M> {
    if messages == [] || refused(messages[0], offset) then []
    else [messages[0]] + Survivors(frame, refused, messages[1..], offset + |frame(messages[0])|)
  }

  lemma {:induction false} SurvivorsAreReadable<M>(frame: M -> seq<byte>, refused: (M, nat) -> bool,
                                                   messages: seq<M>, offset: nat)
    ensures Survivors(frame, refused, messages, offset) == messages[..Readable(frame, refused, messages, offset)]
    decreases |messages|
  {
    if messages != [] && !refused(messages[0], offset) {
      var rest, next := messages[1..], offset + |frame(messages[0])|;
      SurvivorsAreReadable(frame, refused, rest, next);
      TakeCons(messages, Readable(frame, refused, rest, next));
    }
  }

  lemma {:induction false} StreamSurvives<M(!new)>(read: Reader<M>, frame: M -> seq<byte>, refused: (M, nat) -> bool,
                                             messages: seq<M>, tail: seq<byte>, offset: nat)
    requires Inverts(read, frame, refused, messages)
    requires tail == [] || forall o :: read(tail, o) == None
    ensures ParseFrom(read, StreamThen(frame, messages, tail), offset) == Survivors(frame, refused, messages, offset)
    decreases |messages|
  {
    if messages != [] {
      assert messages[0] in messages;
      ParsesOne(read, frame, refused, messages[0], StreamThen(frame, messages[1..], tail), offset);
      InvertsTail(read, frame, refused, messages);
      StreamSurvives(read, frame, refused, messages[1..], tail, offset + |frame(messages[0])|);
    }
  }

  /** A stream of frames with an unreadable tail parses to the messages before the first refused one. */
  lemma StreamParses<M(!new)>(read: Reader<M>, frame: M -> seq<byte>, refused: (M, nat) -> bool,
                              messages: seq<M>, tail: seq<byte>, offset: nat)
    requires Inverts(read, frame, refused, messages)
    requires tail == [] || forall o :: read(tail, o) == None
    ensures ParseFrom(read, StreamThen(frame, messages, tail), offset)
            == messages[..Readable(frame, refused, messages, offset)]
  {
    StreamSurvives(read, frame, refused, messages, tail, offset);
    SurvivorsAreReadable(frame, refused, messages, offset);
  }

  lemma TakeCons<T>(s: seq<T>, n: nat)
    requires n < |s|
    ensures s[..n + 1] == [s[0]] + s[1..][..n]
  {
  }

  /** Where the frame of message `k` starts. */
  function Start<M>(frame: M -> seq<byte>, messages: seq<M>, k: nat, offset: nat): nat
    requires k <= |messages|
  {
    offset + |Stream(frame, messages[..k])|
  }

  lemma StartShift<M>(frame: M -> seq<byte>, messages: seq<M>, k: nat, offset: nat)
    requires 0 < k <= |messages|
    ensures Start(frame, messages, k, offset)
            == Start(frame, messages[1..], k - 1, offset + |frame(messages[0])|)
  {
    assert messages[..k][0] == messages[0] && messages[..k][1..] == messages[1..][..k - 1];
  }

  /** The count of readable messages ends exactly at the first one refused where it starts. */
  lemma {:induction false} ReadableIsFirstRefused<M>(frame: M -> seq<byte>, refused: (M, nat) -> bool,
                                                     messages: seq<M>, offset: nat)
    ensures var n := Readable(frame, refused, messages, offset);
            && (n < |messages| ==> refused(messages[n], Start(frame, messages, n, offset)))
            && (forall k :: 0 <= k < n ==> !refused(messages[k], Start(frame, messages, k, offset)))
    decreases |messages|
  {
    var n := Readable(frame, refused, messages, offset);
    if messages != [] {
      assert messages[..0] == [];
      if n > 0 {
        var next := offset + |frame(messages[0])|;
        ReadableIsFirstRefused(frame, refused, messages[1..], next);
        if n < |messages| {
          StartShift(frame, messages, n, offset);
        }
        forall k | 0 <= k < n
          ensures !refused(messages[k], Start(frame, messages, k, offset))
        {
          if k > 0 {
            StartShift(frame, messages, k, offset);
            assert !refused(messages[1..][k - 1], Start(frame, messages[1..], k - 1, next));
          }
        }
      }
    }
  }

  /** Fewer messages, the same first one refused. */
  lemma {:induction false} ReadablePrefix<M>(frame: M -> seq<byte>, refused: (M, nat) -> bool,
                                             messages: seq<M>, n: nat, offset: nat)
    requires n <= |messages|
    ensures var all := Readable(frame, refused, messages, offset);
            Readable(frame, refused, messages[..n], offset) == if all < n then all else n
    decreases |messages|
  {
    if messages != [] && n > 0 && !refused(messages[0], offset) {
      assert messages[..n][1..] == messages[1..][..n - 1];
      ReadablePrefix(frame, refused, messages[1..], n - 1, offset + |frame(messages[0])|);
    }
  }

  /** How many frames of a stream stand wholly before a cut. */
  function WholeFrames<M>(frame: M -> seq<byte>, messages: seq<M>, cut: nat): (n: nat)
    ensures n <= |messages|
  {
    if messages == [] || cut < |frame(messages[0])| then 0
    else 1 + WholeFrames(frame, messages[1..], cut - |frame(messages[0])|)
  }

  /** A stream cut anywhere: its whole frames, and less than one frame more. */
  lemma {:induction false} CutStream<M>(frame: M -> seq<byte>, messages: seq<M>, cut: nat)
    requires cut <= |Stream(frame, messages)|
    ensures var n := WholeFrames(frame, messages, cut);
            var whole := Stream(frame, messages[..n]);
            && |whole| <= cut
            && (n == |messages| ==> Stream(frame, messages)[..cut] == whole)
            && (n < |messages| ==> cut - |whole| < |frame(messages[n])|
                                   && Stream(frame, messages)[..cut] == whole + frame(messages[n])[..cut - |whole|])
    decreases |messages|
  {
    var n := WholeFrames(frame, messages, cut);
    if messages == [] {
    } else if n == 0 {
      CutLeft(frame(messages[0]), Stream(frame, messages[1..]), cut);
      assert messages[..0] == [];
      Empty(frame(messages[0])[..cut]);
    } else {
      var first, rest := frame(messages[0]), messages[1..];
      var more := cut - |first|;
      CutStream(frame, rest, more);
      CutBehind(first, Stream(frame, rest), more);
      assert messages[..n][0] == messages[0] && messages[..n][1..] == rest[..n - 1];
      if n < |messages| {
        Assoc(first, Stream(frame, rest[..n - 1]), frame(messages[n])[..more - |Stream(frame, rest[..n - 1])|]);
      }
    }
  }

  lemma CutBehind<T>(a: seq<T>, b: seq<T>, n: nat)
    requires n <= |b|
    ensures (a + b)[..|a| + n] == a + b[..n]
  {
  }

  /** All messages come back iff none is refused where its frame starts. */
  lemma RoundTrip<M(!new)>(read: Reader<M>, frame: M -> seq<byte>, refused: (M, nat) -> bool, messages: seq<M>)
    requires Inverts(read, frame, refused, messages)
    ensures ParseFrom(read, Stream(frame, messages), 0) == messages
            <==> forall k :: 0 <= k < |messages| ==> !refused(messages[k], Start(frame, messages, k, 0))
  {
    StreamParses(read, frame, refused, messages, [], 0);
    ReadableIsFirstRefused(frame, refused, messages, 0);
    assert messages[..|messages|] == messages;
  }
}
