/**
 * `SerialWriter`: the outbound worker loop. Each message taken from the output
 * queue is written as the start delimiter, its payload and the stop delimiter;
 * a write that throws abandons that message, and the loop goes on.
 */
module Serial {
  import opened Messages

  /**
   * The state of an `OutputStream`: the bytes written so far, and the fate of
   * each coming `write` call (`true`: it throws `IOException` and writes
   * nothing; calls beyond the list succeed).
   */
  datatype Sink = Sink(written: seq<Byte>, faults: seq<bool>)

  predicate NextWriteFails(s: Sink)
  {
    s.faults != [] && s.faults[0]
  }

  /** One `write` call. */
  function AfterWrite(s: Sink, data: seq<Byte>): Sink
  {
    Sink(if NextWriteFails(s) then s.written else s.written + data,
         if s.faults == [] then [] else s.faults[1..])
  }

  /** The bytes one message is framed as. */
  function Frame(start: Byte, stop: Byte, payload: seq<Byte>): seq<Byte>
  {
    [start] + payload + [stop]
  }

  /** One loop iteration: the three writes, abandoned at the first that throws. */
  function SendFrame(s: Sink, start: Byte, stop: Byte, payload: seq<Byte>): Sink
  {
    if NextWriteFails(s) then AfterWrite(s, [start])
    else
      var s1 := AfterWrite(s, [start]);
      if NextWriteFails(s1) then AfterWrite(s1, payload)
      else AfterWrite(AfterWrite(s1, payload), [stop])
  }

  /** The loop over the queued messages, in queue order. */
  function SendAll(s: Sink, start: Byte, stop: Byte, queue: seq<Message>): Sink
    decreases |queue|
  {
    if queue == [] then s
    else SendFrame(SendAll(s, start, stop, queue[..|queue| - 1]), start, stop, queue[|queue| - 1].bytes)
  }

  /** No fault among the next `n` write calls. */
  predicate NoFaultAhead(faults: seq<bool>, n: nat)
  {
    forall i :: 0 <= i < n && i < |faults| ==> !faults[i]
  }

  /** How many of the three writes of one message are attempted before one throws. */
  function Attempts(s: Sink, start: Byte): nat
  {
    if NextWriteFails(s) then 1
    else if NextWriteFails(AfterWrite(s, [start])) then 2
    else 3
  }

  /** The fault list after `n` write calls. */
  function Drop(faults: seq<bool>, n: nat): seq<bool>
  {
    if n <= |faults| then faults[n..] else []
  }

  /**
   * One message adds a prefix of its frame to the stream, and the whole frame
   * when none of its three writes throws: nothing if the start delimiter
   * fails, the delimiter alone if the payload fails, the delimiter and the
   * payload if the stop delimiter fails. Each attempted write uses up one fault entry.
   */
  lemma SendFrameContribution(s: Sink, start: Byte, stop: Byte, payload: seq<Byte>)
    ensures var r, f := SendFrame(s, start, stop, payload), Frame(start, stop, payload);
      && s.written <= r.written
      && r.written[|s.written|..] <= f
      && (NoFaultAhead(s.faults, 3) ==> r.written == s.written + f)
      && (NextWriteFails(s) ==> r.written == s.written)
      && r.faults == Drop(s.faults, Attempts(s, start))
  {
    var r, f := SendFrame(s, start, stop, payload), Frame(start, stop, payload);
    if NextWriteFails(s) {
      assert r.written[|s.written|..] == [];
    } else {
      var s1 := AfterWrite(s, [start]);
      assert s1.written == s.written + [start];
      if NextWriteFails(s1) {
        assert r.written[|s.written|..] == [start] == f[..1];
      } else {
        var s2 := AfterWrite(s1, payload);
        assert s2.written == s.written + [start] + payload;
        if NextWriteFails(s2) {
          assert r.written[|s.written|..] == [start] + payload == f[..|payload| + 1];
        } else {
          assert r.written == s.written + f;
          assert r.written[|s.written|..] == f;
        }
      }
      if NoFaultAhead(s.faults, 3) {
        assert s.faults != [] ==> !s.faults[0];
        assert s1.faults != [] ==> !s1.faults[0] by {
          if s1.faults != [] { assert s1.faults[0] == s.faults[1]; }
        }
        var s2 := AfterWrite(s1, payload);
        assert s2.faults != [] ==> !s2.faults[0] by {
          if s2.faults != [] { assert s2.faults[0] == s.faults[2]; }
        }
      }
    }
  }

  /** The concatenated frames of a queue of messages. */
  function Frames(start: Byte, stop: Byte, queue: seq<Message>): seq<Byte>
    decreases |queue|
  {
    if queue == [] then []
    else Frames(start, stop, queue[..|queue| - 1]) + Frame(start, stop, queue[|queue| - 1].bytes)
  }

  predicate FaultFree(faults: seq<bool>)
  {
    forall i :: 0 <= i < |faults| ==> !faults[i]
  }

  /** With no write failing, the stream receives exactly the frames of the queue, in queue order. */
  lemma {:induction false} SendAllFaultFree(s: Sink, start: Byte, stop: Byte, queue: seq<Message>)
    requires FaultFree(s.faults)
    ensures SendAll(s, start, stop, queue).written == s.written + Frames(start, stop, queue)
    ensures FaultFree(SendAll(s, start, stop, queue).faults)
    decreases |queue|
  {
    if queue != [] {
      var init := queue[..|queue| - 1];
      SendAllFaultFree(s, start, stop, init);
      var mid := SendAll(s, start, stop, init);
      var p := queue[|queue| - 1].bytes;
      SendFrameContribution(mid, start, stop, p);
      var r := SendFrame(mid, start, stop, p);
      assert FaultFree(r.faults) by {
        var n := Attempts(mid, start);
        if n <= |mid.faults| {
          assert forall i :: 0 <= i < |r.faults| ==> r.faults[i] == mid.faults[i + n];
        }
      }
    }
  }

  /** Messages are written in queue order: sending `q1 + q2` is sending `q1`, then `q2`. */
  lemma {:induction false} SendAllAppend(s: Sink, start: Byte, stop: Byte, q1: seq<Message>, q2: seq<Message>)
    ensures SendAll(s, start, stop, q1 + q2) == SendAll(SendAll(s, start, stop, q1), start, stop, q2)
    decreases |q2|
  {
    if q2 == [] {
      assert q1 + q2 == q1;
    } else {
      assert (q1 + q2)[..|q1 + q2| - 1] == q1 + q2[..|q2| - 1];
      assert (q1 + q2)[|q1 + q2| - 1] == q2[|q2| - 1];
      SendAllAppend(s, start, stop, q1, q2[..|q2| - 1]);
    }
  }

  /**
   * A failed message is not retried and does not stop the next one: whatever
   * became of `first`, `second` is framed in full after it when its own three
   * writes do not throw.
   */
  lemma FailureDoesNotBlockNext(s: Sink, start: Byte, stop: Byte, first: Message, second: Message)
    requires NoFaultAhead(SendFrame(s, start, stop, first.bytes).faults, 3)
    ensures SendAll(s, start, stop, [first, second]).written ==
            SendFrame(s, start, stop, first.bytes).written + Frame(start, stop, second.bytes)
  {
    var q := [first, second];
    assert q[..1] == [first];
    assert [first][..0] == [];
    assert SendAll(s, start, stop, [first]) == SendFrame(s, start, stop, first.bytes);
    SendFrameContribution(SendFrame(s, start, stop, first.bytes), start, stop, second.bytes);
  }

  /** A `java.io.OutputStream` whose `write` calls follow the fault list. */
  class OutputStream {
    var written: seq<Byte>
    var faults: seq<bool>

    function Current(): Sink
      reads this
    {
      Sink(written, faults)
    }

    constructor (faults: seq<bool>)
      ensures written == [] && this.faults == faults
    {
      written := [];
      this.faults := faults;
    }

    /** `write(data)`: `ok` is false where Java throws `IOException`. */
    method Write(data: seq<Byte>) returns (ok: bool)
      modifies this
      ensures ok == !NextWriteFails(old(Current()))
      ensures Current() == AfterWrite(old(Current()), data)
    {
      ok := !(faults != [] && faults[0]);
      if ok {
        written := written + data;
      }
      if faults != [] {
        faults := faults[1..];
      }
    }
  }

  class SerialWriter {
    const out: OutputStream
    var isRunning: bool
    /** `CommunicationManager.startDelimiter` and `stopDelimiter`, whose values are not part of this model. */
    const startDelimiter: Byte
    const stopDelimiter: Byte

    constructor (out: OutputStream, startDelimiter: Byte, stopDelimiter: Byte)
      ensures this.out == out && isRunning
      ensures this.startDelimiter == startDelimiter && this.stopDelimiter == stopDelimiter
    {
      this.out := out;
      this.isRunning := true;
      this.startDelimiter := startDelimiter;
      this.stopDelimiter := stopDelimiter;
    }

    method StopThread()
      modifies this`isRunning
      ensures !isRunning
    {
      isRunning := false;
    }

    /**
     * `run` over the messages the output queue will deliver: it stops only on
     * `isRunning`; when `queue` runs out it would block in `take`, which is
     * where this method returns.
     */
    method Run(queue: seq<Message>) returns (taken: nat)
      modifies out
      ensures taken == (if isRunning then |queue| else 0)
      ensures out.Current() == SendAll(old(out.Current()), startDelimiter, stopDelimiter, queue[..taken])
    {
      taken := 0;
      while isRunning && taken < |queue|
        invariant taken <= |queue|
        invariant !isRunning ==> taken == 0
        invariant out.Current() == SendAll(old(out.Current()), startDelimiter, stopDelimiter, queue[..taken])
        decreases |queue| - taken
      {
        var msg := queue[taken];
        var ok := out.Write([startDelimiter]);
        if ok {
          ok := out.Write(msg.bytes[0..|msg.bytes|]);
          assert msg.bytes[0..|msg.bytes|] == msg.bytes;
        }
        if ok {
          ok := out.Write([stopDelimiter]);   // an IOException on any write: the loop carries on
        }
        assert queue[..taken + 1][..taken] == queue[..taken];
        taken := taken + 1;
      }
    }
  }
}
