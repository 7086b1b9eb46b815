/**
 * stream_buffer.c as its writer and its reader use it: a circular byte store in
 * which a write or a read touches the published index only at its end.  The
 * store refines a byte string, and for a message buffer a queue of messages.
 */
module StreamBuffers {
  import opened Bytes
  import opened Wrappers

  class StreamBuffer {
    const length: nat
    const isMessageBuffer: bool
    const buffer: array<Byte>
    var tail: nat
    var head: nat

    ghost predicate Valid()
      reads this
    {
      && buffer.Length == length
      && tail < length && head < length
    }

    /** The published bytes, oldest first. */
    ghost function Content(): seq<Byte>
      requires Valid()
      reads this, buffer
    {
      Slice(buffer[..], tail, Used(length, tail, head))
    }

    ghost function Free(): nat
      requires Valid()
      reads this
    {
      length - 1 - Used(length, tail, head)
    }

    /** A message buffer holds whole messages only. */
    ghost predicate HoldsMessages()
      requires Valid()
      reads this, buffer
    {
      Parse(Content()).Some?
    }

    ghost function Messages(): seq<Message>
      requires Valid() && HoldsMessages()
      reads this, buffer
    {
      Parse(Content()).value
    }

    /** prvInitialiseNewStreamBuffer over `size` usable bytes. */
    constructor (size: nat, isMessageBuffer: bool)
      ensures Valid() && length == size + 1 && this.isMessageBuffer == isMessageBuffer && fresh(buffer)
      ensures Content() == [] && HoldsMessages() && Messages() == []
    {
      length := size + 1;
      buffer := new Byte[size + 1](_ => 0);
      this.isMessageBuffer := isMessageBuffer;
      tail, head := 0, 0;
    }

    /** prvBytesInBuffer. */
    method BytesInBuffer() returns (count: nat)
      requires Valid()
      ensures count == |Content()|
    {
      count := length + head;
      count := count - tail;
      if count >= length {
        count := count - length;
      }
    }

    /** xStreamBufferSpacesAvailable, with nobody else at work. */
    method SpacesAvailable() returns (space: nat)
      requires Valid()
      ensures space == Free()
    {
      space := length + tail;
      space := space - head;
      space := space - 1;
      if space >= length {
        space := space - length;
      }
    }

    /** memcpy into the store. */
    method CopyIn(at: nat, data: seq<Byte>)
      requires Valid() && at + |data| <= length
      modifies buffer
      ensures buffer[..] == old(buffer[..at]) + data + old(buffer[at + |data|..])
    {
      forall i | 0 <= i < |data| {
        buffer[at + i] := data[i];
      }
    }

    /**
     * prvWriteBytesToBuffer: stores `data` from index `at` on, in one or two
     * pieces, without publishing it.
     */
    method WriteBytes(data: seq<Byte>, at: nat) returns (next: nat)
      requires Valid() && 0 < |data| <= length && at < length
      modifies buffer
      ensures next == Step(length, at, |data|)
      ensures Stored(old(buffer[..]), buffer[..], at, data)
    {
      var first := if length - at < |data| then length - at else |data|;
      CopyIn(at, data[..first]);
      if |data| > first {
        CopyIn(0, data[first..]);
      }
      next := at + |data|;
      if next >= length {
        next := next - length;
      }
    }

    /** prvReadBytesFromBuffer: copies `count` bytes from index `at` on without consuming them. */
    method ReadBytes(count: nat, at: nat) returns (data: seq<Byte>, next: nat)
      requires Valid() && 0 < count <= length && at < length
      ensures next == Step(length, at, count)
      ensures data == Slice(buffer[..], at, count)
    {
      var first := if length - at < count then length - at else count;
      data := buffer[at..at + first];
      if count > first {
        data := data + buffer[..count - first];
      }
      next := at + count;
      if next >= length {
        next := next - length;
      }
    }

    /**
     * prvWriteMessageToBuffer: a message buffer takes the whole message or nothing,
     * a stream buffer as many bytes as fit.  `space` may be an old reading, as long
     * as no more than that much is in use now.
     */
    method WriteMessage(data: seq<Byte>, space: nat, required: nat) returns (written: nat)
      requires Valid() && space <= Free()
      requires isMessageBuffer ==> |data| <= MAX_LENGTH && required == |data| + LENGTH_BYTES
      modifies this`head, buffer
      ensures Valid()
      ensures written == |Taken(isMessageBuffer, data, space)|
      ensures Content() == old(Content()) + Stream(isMessageBuffer, Taken(isMessageBuffer, data, space))
      ensures written == 0 ==> head == old(head)
    {
      var next, frame: seq<Byte> := head, [];
      ghost var before := buffer[..];
      written := |data|;
      if isMessageBuffer {
        if space >= required {
          frame := EncodeLength(|data|);
          next := WriteBytes(frame, next);
        } else {
          written := 0;
        }
      } else if space < |data| {
        written := space;
      }
      ghost var middle := buffer[..];
      if written != 0 {
        ghost var payload := Taken(isMessageBuffer, data, space);
        assert data[..written] == payload;
        next := WriteBytes(data[..written], next);
        PublishBytes(before, middle, buffer[..], tail, head, frame, payload);
        assert frame + payload == Stream(isMessageBuffer, payload);
        head := next;
      } else {
        PublishBytes(before, middle, middle, tail, head, frame, []);
      }
    }

    /**
     * prvReadMessageFromBuffer: takes the next message if it fits the caller's
     * buffer and leaves it in place otherwise; a stream buffer gives up to
     * `capacity` bytes.  `available` may be an old reading.
     */
    method ReadMessage(capacity: nat, available: nat) returns (data: seq<Byte>)
      requires Valid() && available <= |Content()|
      requires isMessageBuffer ==> Head(Content()[..available]).Some?
      modifies this`tail
      ensures Valid()
      ensures isMessageBuffer ==>
                var m := Head(old(Content()[..available])).value;
                if |m| <= capacity then data == m && Content() == old(Tail(Content()))
                else data == [] && tail == old(tail)
      ensures !isMessageBuffer ==>
                && |data| == (if capacity <= available then capacity else available)
                && old(Content()) == data + Content()
    {
      var next, left, wanted := tail, available, capacity;
      ghost var store, skip := buffer[..], 0;
      if isMessageBuffer {
        var prefix;
        HeadOfLonger(Content(), available);
        ConsumeBytes(store, tail, head, 0, LENGTH_BYTES);
        prefix, next := ReadBytes(LENGTH_BYTES, next);
        skip := LENGTH_BYTES;
        wanted := DecodeLength(prefix);
        left := left - LENGTH_BYTES;
        if wanted > capacity {
          wanted := 0;
        }
      }
      var count := if wanted <= left then wanted else left;
      data := [];
      if count != 0 {
        ConsumeBytes(store, tail, head, skip, count);
        data, next := ReadBytes(count, next);
        tail := next;
      }
    }

    /**
     * The send and receive of a message buffer, xStreamBufferSendFromISR and
     * xStreamBufferReceiveFromISR, as operations on a queue of messages: a message
     * is enqueued whole if it fits and otherwise nothing happens.
     */
    method SendMessage(data: Message) returns (sent: bool)
      requires Valid() && isMessageBuffer && HoldsMessages()
      modifies this`head, buffer
      ensures Valid() && HoldsMessages()
      ensures sent <==> LENGTH_BYTES + |data| <= old(Free())
      ensures Messages() == if sent then old(Messages()) + [data] else old(Messages())
      ensures !sent ==> head == old(head)
    {
      var space := SpacesAvailable();
      var written := WriteMessage(data, space, |data| + LENGTH_BYTES);
      sent := written > 0;
      if sent {
        ParseAppend(old(Content()), data);
      } else {
        assert old(Content()) + [] == old(Content());
      }
    }

    /** A receive takes the oldest message, or leaves it where it is if the caller's buffer is too small. */
    method ReceiveMessage(capacity: nat) returns (data: seq<Byte>)
      requires Valid() && isMessageBuffer && HoldsMessages()
      modifies this`tail
      ensures Valid() && HoldsMessages()
      ensures var ms := old(Messages());
              if ms != [] && |ms[0]| <= capacity then data == ms[0] && Messages() == ms[1..]
              else data == [] && Messages() == ms && tail == old(tail)
    {
      var available := BytesInBuffer();
      data := [];
      ghost var content := Content();
      if available > LENGTH_BYTES {
        assert content[..available] == content;
        data := ReadMessage(capacity, available);
      }
    }

    /** xStreamBufferNextMessageLengthBytes. */
    method NextMessageLength() returns (n: nat)
      requires Valid() && HoldsMessages()
      ensures n == if isMessageBuffer && Messages() != [] then |Messages()[0]| else 0
    {
      n := 0;
      if isMessageBuffer {
        var available := BytesInBuffer();
        if available > LENGTH_BYTES {
          ConsumeBytes(buffer[..], tail, head, 0, LENGTH_BYTES);
          var prefix, _ := ReadBytes(LENGTH_BYTES, tail);
          n := DecodeLength(prefix);
        } else {
          assert available == 0;
        }
      }
    }
  }

  /** Taking `count` bytes, `skip` bytes into the content, yields those bytes and leaves the ones behind them. */
  lemma ConsumeBytes(store: seq<Byte>, tail: nat, head: nat, skip: nat, count: nat)
    requires tail < |store| && head < |store| && skip + count <= Used(|store|, tail, head)
    ensures var n := Used(|store|, tail, head);
            var content := Slice(store, tail, n);
            var start := Step(|store|, tail, skip);
            var next := Step(|store|, start, count);
            && Slice(store, start, count) == content[skip..skip + count]
            && Used(|store|, next, head) == n - skip - count
            && Slice(store, next, n - skip - count) == content[skip + count..]
  {
  }

  /** `after` is `before` with `data` stored from index `at` on and nothing else changed. */
  ghost predicate Stored(before: seq<Byte>, after: seq<Byte>, at: nat, data: seq<Byte>)
    requires at < |before| && |data| <= |before|
  {
    && |after| == |before|
    && Slice(after, at, |data|) == data
    && forall i :: 0 <= i < |before| && Used(|before|, at, i) >= |data| ==> after[i] == before[i]
  }

  /** The part of `data` a write accepts: all or nothing of a message, what fits of a stream. */
  function Taken(isMessage: bool, data: seq<Byte>, space: nat): seq<Byte> {
    if isMessage then (if space >= |data| + LENGTH_BYTES then data else [])
    else if |data| <= space then data else data[..space]
  }

  /** The bytes that stand for an accepted payload; nothing stands for an empty message. */
  function Stream(isMessage: bool, payload: seq<Byte>): seq<Byte>
    requires isMessage ==> |payload| <= MAX_LENGTH
  {
    if isMessage && payload != [] then Frame(payload) else payload
  }

  /** Two writes one behind the other store the concatenation. */
  lemma StoredTwice(before: seq<Byte>, middle: seq<Byte>, after: seq<Byte>, at: nat, a: seq<Byte>, b: seq<Byte>)
    requires at < |before| && |a| + |b| <= |before|
    requires Stored(before, middle, at, a)
    requires Stored(middle, after, Step(|before|, at, |a|), b)
    ensures Stored(before, after, at, a + b)
  {
    var next := Step(|before|, at, |a|);
    forall i | 0 <= i < |a|
      ensures after[Step(|before|, at, i)] == middle[Step(|before|, at, i)]
    {
      assert Used(|before|, next, Step(|before|, at, i)) >= |b|;
    }
    SliceEqual(after, middle, at, |a|);
    SliceSplit(after, at, |a|, |b|);
    forall i | 0 <= i < |before| && Used(|before|, at, i) >= |a| + |b|
      ensures after[i] == before[i]
    {
      assert Used(|before|, next, i) >= |b|;
    }
  }

  /** Bytes stored behind the content join it once head is moved past them, and not before. */
  lemma PublishStored(before: seq<Byte>, after: seq<Byte>, tail: nat, head: nat, data: seq<Byte>)
    requires tail < |before| && head < |before|
    requires Used(|before|, tail, head) + |data| < |before|
    requires Stored(before, after, head, data)
    ensures var n := Used(|before|, tail, head);
            && Slice(after, tail, n) == Slice(before, tail, n)
            && Used(|before|, tail, Step(|before|, head, |data|)) == n + |data|
            && Slice(after, tail, n + |data|) == Slice(before, tail, n) + data
  {
    var n := Used(|before|, tail, head);
    forall i | 0 <= i < n
      ensures after[Step(|before|, tail, i)] == before[Step(|before|, tail, i)]
    {
      assert Used(|before|, head, Step(|before|, tail, i)) >= |data|;
    }
    SliceEqual(after, before, tail, n);
    SliceSplit(after, tail, n, |data|);
  }

  /** The same for a length prefix (possibly absent) and a payload written in two goes. */
  lemma PublishBytes(before: seq<Byte>, middle: seq<Byte>, after: seq<Byte>, tail: nat, head: nat,
                     prefix: seq<Byte>, payload: seq<Byte>)
    requires tail < |before| && head < |before|
    requires Used(|before|, tail, head) + |prefix| + |payload| < |before|
    requires if prefix == [] then middle == before else Stored(before, middle, head, prefix)
    requires if payload == [] then after == middle
             else |middle| == |before| && Stored(middle, after, Step(|before|, head, |prefix|), payload)
    ensures var n, m := Used(|before|, tail, head), |prefix| + |payload|;
            && |after| == |before|
            && Slice(after, tail, n) == Slice(before, tail, n)
            && Used(|before|, tail, Step(|before|, head, m)) == n + m
            && Step(|before|, head, m) == Step(|before|, Step(|before|, head, |prefix|), |payload|)
            && Slice(after, tail, n + m) == Slice(before, tail, n) + (prefix + payload)
  {
    StoredTwice(before, middle, after, head, prefix, payload);
    PublishStored(before, after, tail, head, prefix + payload);
  }

  /** The first message does not depend on how much of what follows it is looked at. */
  lemma HeadOfLonger(s: seq<Byte>, n: nat)
    requires n <= |s| && Head(s[..n]).Some?
    ensures Head(s) == Head(s[..n])
  {
    var m := Head(s[..n]).value;
    assert s[..n][..LENGTH_BYTES] == s[..LENGTH_BYTES];
    assert s[..n][LENGTH_BYTES..LENGTH_BYTES + |m|] == s[LENGTH_BYTES..LENGTH_BYTES + |m|];
  }
}
