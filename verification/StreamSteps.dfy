/**
 * How much each step of the writer and of the reader of a stream buffer moves: all
 * that fits, all there is, or one whole message.
 */
module StreamSteps {
  import opened Bytes
  import opened StreamBuffers
  import opened StreamRaces

  /** A stream takes the longest part of the data that fits, from its start; a message buffer takes all or nothing. */
  lemma TakesWhatFits(isMessage: bool, data: seq<Byte>, space: nat)
    ensures var taken := Taken(isMessage, data, space);
            && taken <= data
            && (!isMessage ==> |taken| <= space && (|taken| == |data| || |taken| == space))
            && (isMessage ==> taken == if LENGTH_BYTES + |data| <= space then data else [])
  {
  }

  /** If tail has not moved between its readings, the space the writer finds is all there is. */
  lemma SpaceIsExactWhenQuiet(s: State)
    requires Inv(s) && s.writer.TailReread? && s.writer.original == s.tail && s.writer.seen == s.tail
    ensures WriterStep(s, CheckTail) ==
            s.(writer := Sized(s.writer.data, |s.store| - 1 - Used(|s.store|, s.tail, s.head)))
  {
  }

  /** If tail has moved the writer starts again. */
  lemma MovedTailIsReread(s: State)
    requires Inv(s) && s.writer.TailReread? && s.writer.original != s.tail
    ensures WriterStep(s, CheckTail) == s.(writer := Looping(s.writer.data))
  {
  }

  /** The writer goes on to copy what fits; if that is nothing it has finished. */
  lemma PreparesWhatFits(s: State)
    requires Inv(s) && s.writer.Sized?
    ensures var data, space, t := s.writer.data, s.writer.space, WriterStep(s, Prepare);
            && (if s.isMessageBuffer then
                  t.writer == if LENGTH_BYTES + |data| <= space then Copying(data, {}) else Resting
                else if |data| == 0 || space == 0 then t.writer == Resting
                else t.writer == Copying(if |data| <= space then data else data[..space], {}))
            && t == s.(writer := t.writer)
  {
  }

  /** Once every byte is stored, publishing sends exactly those bytes, and that message. */
  lemma PublishesAll(s: State)
    requires Inv(s) && s.writer.Copying? && s.writer.payload != []
    requires var bytes := BytesFor(s.isMessageBuffer, s.writer.payload);
             forall i :: 0 <= i < |bytes| ==> i in s.writer.stored
    ensures var t, payload := WriterStep(s, Publish), s.writer.payload;
            && t.writer == Resting && t.received == s.received
            && t.sent == s.sent + (if s.isMessageBuffer then EncodeLength(|payload|) + payload else payload)
            && (s.isMessageBuffer ==> t.sentMessages == s.sentMessages + [payload])
  {
  }

  /** In a stream the reader takes as many of the oldest bytes as it counted and can hold. */
  lemma TakesOldestBytes(s: State, capacity: nat)
    requires Inv(s) && !s.isMessageBuffer && s.reader.Counted? && capacity > 0 && s.reader.available > 0
    requires forall i :: 0 <= i < s.reader.available ==> i in s.reader.loaded
    ensures var available := s.reader.available;
            var t, n := ReaderStep(s, Take(capacity)), if capacity <= available then capacity else available;
            && t.received == s.received + Slice(s.store, s.tail, n) && t.reader == Waiting && t.sent == s.sent
  {
    TakeMovesBytes(s, if capacity <= s.reader.available then capacity else s.reader.available);
  }

  /** The first of the messages the reader has counted. */
  lemma NextMessage(s: State)
    requires Inv(s) && s.isMessageBuffer && s.reader.Counted? && s.reader.available > 0
    ensures |s.receivedMessages| < |s.sentMessages|
    ensures var k := |s.receivedMessages|;
            && k < s.reader.upTo <= |s.sentMessages|
            && LENGTH_BYTES + |s.sentMessages[k]| <= s.reader.available
            && Slice(s.store, s.tail, s.reader.available)[..LENGTH_BYTES] == EncodeLength(|s.sentMessages[k]|)
  {
    var k := |s.receivedMessages|;
    var ms := s.sentMessages[k..s.reader.upTo];
    assert Flatten([]) == [];
    assert ms != [];
    var content := Slice(s.store, s.tail, s.reader.available);
    assert content == Frame(ms[0]) + Flatten(ms[1..]);
  }

  lemma LengthIsRead(s: State)
    requires Inv(s) && s.isMessageBuffer && s.reader.Counted? && s.reader.available > 0
    requires forall i :: 0 <= i < s.reader.available ==> i in s.reader.loaded
    ensures |s.receivedMessages| < |s.sentMessages|
    ensures var m := s.sentMessages[|s.receivedMessages|];
            && s.reader.available > LENGTH_BYTES
            && DecodeLength(LoadedBytes(s.reader.loaded, LENGTH_BYTES)) == |m|
  {
    NextMessage(s);
    var m := s.sentMessages[|s.receivedMessages|];
    var content := Slice(s.store, s.tail, s.reader.available);
    assert LoadedBytes(s.reader.loaded, LENGTH_BYTES) == content[..LENGTH_BYTES];
    DecodeEncode(|m|);
  }

  /** In a message buffer the reader takes exactly the next message, or nothing if it is longer than it can hold. */
  lemma TakesOneMessage(s: State, capacity: nat)
    requires Inv(s) && s.isMessageBuffer && s.reader.Counted? && s.reader.available > 0
    requires forall i :: 0 <= i < s.reader.available ==> i in s.reader.loaded
    ensures |s.receivedMessages| < |s.sentMessages|
    ensures var t, m := ReaderStep(s, Take(capacity)), s.sentMessages[|s.receivedMessages|];
            if |m| <= capacity then
              t.receivedMessages == s.receivedMessages + [m] && t.reader == Waiting && t.sent == s.sent
            else t == s
  {
    NextMessage(s);
    LengthIsRead(s);
    var m := s.sentMessages[|s.receivedMessages|];
    if |m| <= capacity {
      TakesNextMessage(s, capacity);
      assert Frame(m)[LENGTH_BYTES..] == m;
    }
  }
}
