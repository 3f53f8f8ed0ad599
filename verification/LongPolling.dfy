/**
 The reassembly buffer of the long-polling client. Every poll appends what it received and
 hands on at most one complete record, so records can queue up behind each other.
 */
module LongPolling {
  import opened Seqs
  import opened Text

  /** How many complete records a buffer holds. */
  function Backlog(buffer: string): nat {
    |Split(buffer, RECORD_SEPARATOR)| - 1
  }

  /** The complete records of a buffer. */
  function Complete(buffer: string): seq<string> {
    var parts := Split(buffer, RECORD_SEPARATOR);
    parts[..|parts| - 1]
  }

  lemma FirstRecord(buffer: string)
    ensures Find(buffer, [RECORD_SEPARATOR]) == -1 ==> Complete(buffer) == []
    ensures var i := Find(buffer, [RECORD_SEPARATOR]);
            i != -1 ==> Complete(buffer) == [buffer[..i]] + Complete(buffer[i + 1..])
                        && buffer == buffer[..i] + [RECORD_SEPARATOR] + buffer[i + 1..]
  {
    var i := Find(buffer, [RECORD_SEPARATOR]);
    if i != -1 {
      assert buffer[i..i + 1] == [RECORD_SEPARATOR];
      var rest := Split(buffer[i + 1..], RECORD_SEPARATOR);
      assert ([buffer[..i]] + rest)[..|rest|] == [buffer[..i]] + rest[..|rest| - 1];
    }
  }

  /** The number of separators, counted without cutting anything. */
  function Separators(s: string): nat {
    if s == "" then 0 else (if s[0] == RECORD_SEPARATOR then 1 else 0) + Separators(s[1..])
  }

  lemma {:induction false} SeparatorsAppend(a: string, b: string)
    ensures Separators(a + b) == Separators(a) + Separators(b)
  {
    if a == "" {
      Empty(b);
    } else {
      CutLeft(a, b, 1);
      SeparatorsAppend(a[1..], b);
    }
  }

  lemma {:induction false} NoSeparators(s: string)
    requires RECORD_SEPARATOR !in s
    ensures Separators(s) == 0
  {
    if s != "" {
      NoSeparators(s[1..]);
    }
  }

  lemma {:induction false} BacklogCounts(buffer: string)
    ensures Backlog(buffer) == Separators(buffer) == |Complete(buffer)|
    decreases |buffer|
  {
    var i := Find(buffer, [RECORD_SEPARATOR]);
    FirstRecord(buffer);
    if i == -1 {
      FoundChar(buffer, RECORD_SEPARATOR);
      NoSeparators(buffer);
    } else {
      BacklogCounts(buffer[i + 1..]);
      assert Split(buffer, RECORD_SEPARATOR)[0] == buffer[..i];
      NoSeparators(buffer[..i]);
      SeparatorsAppend(buffer[..i] + [RECORD_SEPARATOR], buffer[i + 1..]);
      SeparatorsAppend(buffer[..i], [RECORD_SEPARATOR]);
    }
  }

  /** A response body, or None for a poll that timed out or failed. */
  type Poll = Option<string>

  /** All bytes the polls brought. */
  function Received(polls: seq<Poll>): string {
    if polls == [] then ""
    else (if polls[0].Some? then polls[0].value else "") + Received(polls[1..])
  }

  /** The queue the client amounts to: a backlog that grows by the arrivals and shrinks by one a poll. */
  function QueueLength(backlog: nat, polls: seq<Poll>): nat
    decreases |polls|
  {
    if polls == [] then backlog else
    match polls[0]
    case None => QueueLength(backlog, polls[1..])
    case Some(frame) =>
      var waiting := backlog + Separators(frame);
      QueueLength(if waiting == 0 then 0 else waiting - 1, polls[1..])
  }

  /** Bodies without data drain the queue, one record each. */
  lemma {:induction false} EmptyPollsDrain(backlog: nat, polls: seq<Poll>)
    requires forall p :: p in polls ==> p == Some("")
    ensures QueueLength(backlog, polls) == if |polls| <= backlog then backlog - |polls| else 0
    decreases |polls|
  {
    if polls != [] {
      assert polls[0] in polls;
      assert forall p :: p in polls[1..] ==> p in polls;
      EmptyPollsDrain(if backlog == 0 then 0 else backlog - 1, polls[1..]);
    }
  }

  class LongPollingClient {
    var buffer: string
    var delivered: seq<string>

    constructor ()
      ensures buffer == "" && delivered == []
    {
      buffer, delivered := "", [];
    }

    /** Appends what a poll brought and takes the first complete record off the buffer. */
    method Append(frame: string) returns (record: Option<string>)
      modifies `buffer
      ensures record == if Complete(old(buffer) + frame) == [] then None else Some(Complete(old(buffer) + frame)[0])
      ensures record == None ==> buffer == old(buffer) + frame
      ensures record != None ==> old(buffer) + frame == record.value + [RECORD_SEPARATOR] + buffer
                                 && RECORD_SEPARATOR !in record.value
      ensures Backlog(buffer) == var waiting := Backlog(old(buffer)) + Separators(frame);
                                 if waiting == 0 then 0 else waiting - 1
    {
      ghost var before := buffer;
      buffer := buffer + frame;
      FirstRecord(buffer);
      BacklogCounts(before);
      BacklogCounts(buffer);
      SeparatorsAppend(before, frame);
      var idx := Find(buffer, [RECORD_SEPARATOR]);
      if idx == -1 {
        return None;
      }
      var complete := buffer[0..idx];
      assert Split(buffer, RECORD_SEPARATOR)[0] == complete;
      BacklogCounts(buffer[idx + 1..]);
      buffer := buffer[idx + 1..];
      return Some(complete);
    }

    /**
     The polling loop. Nothing is lost, duplicated or reordered: the records handed on, each with
     its separator, and the buffer are together exactly the bytes the polls brought; the records
     handed on and those waiting are together all complete records, in order; and the number
     waiting is that of the queue.
     */
    method Run(polls: seq<Poll>)
      modifies this
      ensures old(delivered) <= delivered
      ensures Terminated(delivered[|old(delivered)|..], RECORD_SEPARATOR) + buffer == old(buffer) + Received(polls)
      ensures delivered + Complete(buffer) == old(delivered) + Complete(old(buffer) + Received(polls))
      ensures |Complete(buffer)| == QueueLength(|Complete(old(buffer))|, polls)
    {
      ghost var start, backlog := buffer, Backlog(buffer);
      ghost var handed: seq<string>, done := [], "";
      Empty(start);
      Empty(delivered);
      assert polls[0..] == polls;
      Empty(Received(polls));
      BacklogCounts(start);
      for k := 0 to |polls|
        invariant delivered == old(delivered) + handed
        invariant forall r :: r in handed ==> RECORD_SEPARATOR !in r
        invariant Terminated(handed, RECORD_SEPARATOR) + buffer == start + done
        invariant done + Received(polls[k..]) == Received(polls)
        invariant QueueLength(Backlog(buffer), polls[k..]) == QueueLength(backlog, polls)
      {
        SkipSkip(polls, k, 1);
        if polls[k].Some? {
          ghost var before := buffer;
          var frame := polls[k].value;
          Assoc(done, frame, Received(polls[k + 1..]));
          Assoc(Terminated(handed, RECORD_SEPARATOR), before, frame);
          Assoc(start, done, frame);
          done := done + frame;
          var record := Append(frame);
          if record.Some? {
            HandOn(handed, record.value, buffer);
            Assoc(old(delivered), handed, [record.value]);
            delivered := delivered + [record.value];
            handed := handed + [record.value];
          }
        } else {
          Empty(Received(polls[k + 1..]));
        }
      }
      Empty(done);
      CutMiddle(old(delivered), handed);
      CompleteAfter(handed, buffer);
      Assoc(old(delivered), handed, Complete(buffer));
      BacklogCounts(buffer);
    }
  }

  lemma HandOn(handed: seq<string>, record: string, rest: string)
    ensures Terminated(handed + [record], RECORD_SEPARATOR) + rest
            == Terminated(handed, RECORD_SEPARATOR) + (record + [RECORD_SEPARATOR] + rest)
  {
    TerminatedAppend(handed, [record], RECORD_SEPARATOR);
    Empty(record + [RECORD_SEPARATOR]);
    Assoc(Terminated(handed, RECORD_SEPARATOR), record + [RECORD_SEPARATOR], rest);
  }

  /** Terminated records before a buffer are the first complete records of the whole. */
  lemma CompleteAfter(handed: seq<string>, buffer: string)
    requires forall r :: r in handed ==> RECORD_SEPARATOR !in r
    ensures Complete(Terminated(handed, RECORD_SEPARATOR) + buffer) == handed + Complete(buffer)
  {
    SplitTerminated(handed, buffer, RECORD_SEPARATOR);
    var parts := Split(buffer, RECORD_SEPARATOR);
    assert (handed + parts)[..|handed| + |parts| - 1] == handed + parts[..|parts| - 1];
  }
}
