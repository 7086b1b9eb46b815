/**
 * One writer and one reader of a stream or message buffer, each step one access
 * to shared memory, interleaved in any order.  Neither takes a lock: the writer
 * publishes by storing head after all its bytes, the reader by storing tail
 * after all its loads.
 */
module StreamRaces {
  import opened Bytes
  import opened Wrappers
  import opened StreamBuffers

  /** Where the writer is inside xStreamBufferSpacesAvailable and prvWriteMessageToBuffer. */
  datatype Writer =
    | Resting
    | Looping(data: seq<Byte>)
    | TailRead(data: seq<Byte>, original: nat)
    | TailReread(data: seq<Byte>, original: nat, seen: nat)
    | Sized(data: seq<Byte>, space: nat)
    // Copying the bytes for `payload`; `stored` holds the offsets done so far, in any order.
    | Copying(payload: seq<Byte>, stored: set<nat>)

  /**
   * Where the reader is: `available` was computed from head when it was read, and
   * `loaded` holds the bytes read since.  `upTo` counts the messages sent by then.
   */
  datatype Reader =
    | Waiting
    | Counted(available: nat, loaded: map<nat, Byte>, upTo: nat)

  datatype State = State(
    isMessageBuffer: bool,
    store: seq<Byte>, tail: nat, head: nat,
    writer: Writer, reader: Reader,
    // History: all bytes and messages published, and all bytes and messages taken.
    sent: seq<Byte>, received: seq<Byte>,
    sentMessages: seq<Message>, receivedMessages: seq<Message>)

  datatype Action =
    | Send(data: seq<Byte>) | ReadTail | RereadTail | CheckTail | Prepare | Store(offset: nat) | Publish
    | ReadHead | Load(offset: nat) | Take(capacity: nat) | GiveUp

  ghost function Init(length: nat, isMessageBuffer: bool): (s: State)
    requires length > 0
    ensures Inv(s)
  {
    State(isMessageBuffer, seq(length, _ => 0), 0, 0, Resting, Waiting, [], [], [], [])
  }

  /** The bytes the writer stores for a payload; an empty message stores its length but publishes nothing. */
  function BytesFor(isMessage: bool, payload: seq<Byte>): seq<Byte>
    requires isMessage ==> |payload| <= MAX_LENGTH
  {
    if isMessage then Frame(payload) else payload
  }

  /** The space computed from one reading of tail. */
  function SpaceFrom(length: nat, tail: nat, head: nat): (n: nat)
    requires tail < length && head < length
    ensures n == length - 1 - Used(length, tail, head)
  {
    var space := length + tail - head - 1;
    if space >= length then space - length else space
  }

  function LoadedBytes(loaded: map<nat, Byte>, n: nat): (s: seq<Byte>)
    requires forall i :: 0 <= i < n ==> i in loaded
    ensures |s| == n
  {
    seq(n, i requires 0 <= i < n => loaded[i])
  }

  /** What keeps every index and every local value in range; part of the invariant below. */
  ghost predicate WellFormed(s: State) {
    && s.tail < |s.store| && s.head < |s.store|
    && (s.writer.TailReread? ==> s.writer.seen < |s.store|)
    && (s.isMessageBuffer && s.writer.Copying? ==> |s.writer.payload| <= MAX_LENGTH)
    && (s.writer.Copying? ==> |BytesFor(s.isMessageBuffer, s.writer.payload)| < |s.store|)
    && (s.reader.Counted? ==> s.reader.available < |s.store|)
  }

  /** One step of the writer; a step that is not enabled changes nothing. */
  ghost function WriterStep(s: State, a: Action): State
    requires WellFormed(s)
  {
    var length := |s.store|;
    match (a, s.writer)
    case (Send(data), Resting) =>
      if s.isMessageBuffer && |data| > MAX_LENGTH then s else s.(writer := Looping(data))
    case (ReadTail, Looping(data)) =>
      s.(writer := TailRead(data, s.tail))
    case (RereadTail, TailRead(data, original)) =>
      s.(writer := TailReread(data, original, s.tail))
    case (CheckTail, TailReread(data, original, seen)) =>
      s.(writer := if original == s.tail then Sized(data, SpaceFrom(length, seen, s.head)) else Looping(data))
    case (Prepare, Sized(data, space)) =>
      var payload := Taken(s.isMessageBuffer, data, space);
      var fits := if s.isMessageBuffer then space >= |data| + LENGTH_BYTES else payload != [];
      s.(writer := if fits then Copying(payload, {}) else Resting)
    case (Store(i), Copying(payload, stored)) =>
      var bytes := BytesFor(s.isMessageBuffer, payload);
      if i < |bytes| then
        s.(store := s.store[Step(length, s.head, i) := bytes[i]], writer := Copying(payload, stored + {i}))
      else s
    case (Publish, Copying(payload, stored)) =>
      var bytes := BytesFor(s.isMessageBuffer, payload);
      if exists i :: 0 <= i < |bytes| && i !in stored then s
      else if payload == [] then s.(writer := Resting)
      else s.(head := Step(length, s.head, |bytes|), writer := Resting, sent := s.sent + bytes,
              sentMessages := if s.isMessageBuffer then s.sentMessages + [payload] else s.sentMessages)
    case _ => s
  }

  /** How many bytes the reader takes: a stream's worth, or the next message with its length; 0 to take nothing. */
  function TakeCount(isMessage: bool, available: nat, loaded: map<nat, Byte>, capacity: nat): (n: nat)
    ensures n <= available
  {
    if !isMessage then
      if capacity <= available then capacity else available
    else if available <= LENGTH_BYTES || exists i :: 0 <= i < LENGTH_BYTES && i !in loaded then 0
    else
      var wanted := DecodeLength(LoadedBytes(loaded, LENGTH_BYTES));
      if wanted == 0 || wanted > capacity then 0
      else LENGTH_BYTES + if wanted <= available - LENGTH_BYTES then wanted else available - LENGTH_BYTES
  }

  /** One step of the reader. */
  ghost function ReaderStep(s: State, a: Action): State
    requires WellFormed(s)
  {
    var length := |s.store|;
    match (a, s.reader)
    case (ReadHead, Waiting) =>
      s.(reader := Counted(Used(length, s.tail, s.head), map[], |s.sentMessages|))
    case (Load(i), Counted(available, loaded, upTo)) =>
      if i < available then s.(reader := Counted(available, loaded[i := s.store[Step(length, s.tail, i)]], upTo))
      else s
    case (Take(capacity), Counted(available, loaded, upTo)) =>
      var n := TakeCount(s.isMessageBuffer, available, loaded, capacity);
      if n == 0 || exists i :: 0 <= i < n && i !in loaded then s
      else
        var data := LoadedBytes(loaded, n);
        s.(tail := Step(length, s.tail, n), reader := Waiting, received := s.received + data,
           receivedMessages := if s.isMessageBuffer && n > LENGTH_BYTES && n - LENGTH_BYTES <= MAX_LENGTH
                               then s.receivedMessages + [data[LENGTH_BYTES..]] else s.receivedMessages)
    case (GiveUp, Counted(_, _, _)) => s.(reader := Waiting)
    case _ => s
  }

  ghost function Exec(s: State, a: Action): State
    requires WellFormed(s)
  {
    if a.ReadHead? || a.Load? || a.Take? || a.GiveUp? then ReaderStep(s, a) else WriterStep(s, a)
  }

  // ---- the invariant ---------------------------------------------------------------

  ghost predicate WriterInv(s: State)
    requires WellFormed(s)
  {
    var length := |s.store|;
    var used := Used(length, s.tail, s.head);
    match s.writer
    case TailReread(data, original, seen) => used <= Used(length, seen, s.head)
    case Sized(data, space) => space <= length - 1 - used
    case Copying(payload, stored) =>
      var bytes := BytesFor(s.isMessageBuffer, payload);
      && |bytes| <= length - 1 - used
      && forall i :: i in stored ==> i < |bytes| && s.store[Step(length, s.head, i)] == bytes[i]
    case _ => true
  }

  ghost predicate ReaderInv(s: State)
    requires WellFormed(s)
  {
    s.reader.Counted? ==>
      && s.reader.available <= Used(|s.store|, s.tail, s.head)
      && forall i :: i in s.reader.loaded ==>
           i < s.reader.available && s.reader.loaded[i] == s.store[Step(|s.store|, s.tail, i)]
  }

  ghost predicate DataInv(s: State)
    requires WellFormed(s)
  {
    && (s.isMessageBuffer && (s.writer.Looping? || s.writer.TailRead? || s.writer.TailReread? || s.writer.Sized?) ==>
          |s.writer.data| <= MAX_LENGTH)
    && s.sent == s.received + Slice(s.store, s.tail, Used(|s.store|, s.tail, s.head))
  }

  ghost predicate MessageInv(s: State)
    requires WellFormed(s)
  {
    s.isMessageBuffer ==>
      && s.sent == Flatten(s.sentMessages)
      && s.received == Flatten(s.receivedMessages)
      && s.receivedMessages <= s.sentMessages
      && (s.reader.Counted? ==>
            && |s.receivedMessages| <= s.reader.upTo <= |s.sentMessages|
            && Slice(s.store, s.tail, s.reader.available)
               == Flatten(s.sentMessages[|s.receivedMessages|..s.reader.upTo]))
  }

  ghost predicate Inv(s: State) {
    WellFormed(s) && WriterInv(s) && ReaderInv(s) && DataInv(s) && MessageInv(s)
  }

  /** Storing a byte behind head disturbs neither the content nor what the reader has loaded. */
  lemma StoreKeepsInv(s: State, i: nat)
    requires Inv(s)
    ensures Inv(WriterStep(s, Store(i)))
  {
    if s.writer.Copying? && i < |BytesFor(s.isMessageBuffer, s.writer.payload)| {
      var length, used := |s.store|, Used(|s.store|, s.tail, s.head);
      var t := WriterStep(s, Store(i));
      forall j | 0 <= j < used
        ensures t.store[Step(length, s.tail, j)] == s.store[Step(length, s.tail, j)]
      {
      }
      SliceEqual(t.store, s.store, s.tail, used);
      if s.reader.Counted? {
        SliceEqual(t.store, s.store, s.tail, s.reader.available);
      }
      assert WriterInv(t) && ReaderInv(t) && DataInv(t) && MessageInv(t);
    }
  }

  lemma PublishKeepsInv(s: State)
    requires Inv(s)
    ensures Inv(WriterStep(s, Publish))
  {
    var t := WriterStep(s, Publish);
    if t.head != s.head || t.sent != s.sent {
      var payload := s.writer.payload;
      var bytes := BytesFor(s.isMessageBuffer, payload);
      assert Slice(s.store, s.head, |bytes|) == bytes;
      assert Stored(s.store, s.store, s.head, bytes);
      PublishStored(s.store, s.store, s.tail, s.head, bytes);
      assert t.sent == s.received + (Slice(s.store, s.tail, Used(|s.store|, s.tail, s.head)) + bytes);
      if s.isMessageBuffer {
        FlattenAppend(s.sentMessages, payload);
        if s.reader.Counted? {
          var k, upTo := |s.receivedMessages|, s.reader.upTo;
          assert t.sentMessages[k..upTo] == s.sentMessages[k..upTo];
        }
      }
    }
  }

  /** The remaining writer steps touch nothing shared; the space they compute is never too large. */
  lemma WriterKeepsInv(s: State, a: Action)
    requires Inv(s)
    ensures Inv(WriterStep(s, a))
  {
    if a.Store? {
      StoreKeepsInv(s, a.offset);
    } else if a.Publish? {
      PublishKeepsInv(s);
    }
  }

  /** What a reader in message mode takes is exactly the next message. */
  lemma TakesNextMessage(s: State, capacity: nat)
    requires Inv(s) && s.isMessageBuffer && s.reader.Counted?
    requires var n := TakeCount(true, s.reader.available, s.reader.loaded, capacity);
             n > 0 && forall i :: 0 <= i < n ==> i in s.reader.loaded
    ensures var n := TakeCount(true, s.reader.available, s.reader.loaded, capacity);
            var k := |s.receivedMessages|;
            && k < s.reader.upTo
            && LoadedBytes(s.reader.loaded, n) == Frame(s.sentMessages[k])
            && n == LENGTH_BYTES + |s.sentMessages[k]|
  {
    var k, loaded, available := |s.receivedMessages|, s.reader.loaded, s.reader.available;
    var n := TakeCount(true, available, loaded, capacity);
    var ms := s.sentMessages[k..s.reader.upTo];
    var content := Slice(s.store, s.tail, available);
    assert Flatten([]) == [];
    assert ms != [];
    var frame := Frame(ms[0]);
    assert content == frame + Flatten(ms[1..]);
    assert LoadedBytes(loaded, LENGTH_BYTES) == content[..LENGTH_BYTES] == EncodeLength(|ms[0]|);
    DecodeEncode(|ms[0]|);
    assert LoadedBytes(loaded, n) == content[..n] == frame;
  }

  /** Taking `n` loaded bytes moves them from the content to the received bytes. */
  lemma TakeMovesBytes(s: State, n: nat)
    requires Inv(s) && s.reader.Counted? && n <= s.reader.available
    requires forall i :: 0 <= i < n ==> i in s.reader.loaded
    ensures var length, tail := |s.store|, Step(|s.store|, s.tail, n);
            var used := Used(length, s.tail, s.head);
            && Used(length, tail, s.head) == used - n
            && Slice(s.store, s.tail, used) == LoadedBytes(s.reader.loaded, n) + Slice(s.store, tail, used - n)
  {
    ConsumeBytes(s.store, s.tail, s.head, 0, n);
    var content := Slice(s.store, s.tail, Used(|s.store|, s.tail, s.head));
    assert LoadedBytes(s.reader.loaded, n) == content[..n];
    assert content == content[..n] + content[n..];
  }

  lemma TakeKeepsInv(s: State, capacity: nat)
    requires Inv(s)
    ensures Inv(ReaderStep(s, Take(capacity)))
  {
    if ReaderStep(s, Take(capacity)) != s {
      TakeKeepsBytes(s, capacity);
      if s.isMessageBuffer {
        TakeKeepsMessages(s, capacity);
      }
    }
  }

  lemma TakeKeepsBytes(s: State, capacity: nat)
    requires Inv(s) && ReaderStep(s, Take(capacity)) != s
    ensures var t := ReaderStep(s, Take(capacity));
            WellFormed(t) && WriterInv(t) && ReaderInv(t) && DataInv(t)
  {
    TakeMovesBytes(s, TakeCount(s.isMessageBuffer, s.reader.available, s.reader.loaded, capacity));
  }

  lemma TakeKeepsMessages(s: State, capacity: nat)
    requires Inv(s) && s.isMessageBuffer && ReaderStep(s, Take(capacity)) != s
    ensures var t := ReaderStep(s, Take(capacity));
            WellFormed(t) && MessageInv(t)
  {
    var k := |s.receivedMessages|;
    TakesNextMessage(s, capacity);
    assert Frame(s.sentMessages[k])[LENGTH_BYTES..] == s.sentMessages[k];
    FlattenAppend(s.receivedMessages, s.sentMessages[k]);
  }

  lemma ReaderKeepsInv(s: State, a: Action)
    requires Inv(s)
    ensures Inv(ReaderStep(s, a))
  {
    match (a, s.reader)
    case (Take(capacity), _) =>
      TakeKeepsInv(s, capacity);
    case (ReadHead, Waiting) =>
      var k := |s.receivedMessages|;
      var content := Slice(s.store, s.tail, Used(|s.store|, s.tail, s.head));
      if s.isMessageBuffer {
        FlattenSplit(s.sentMessages, k);
        assert s.sentMessages[..k] == s.receivedMessages;
        assert s.sentMessages[k..|s.sentMessages|] == s.sentMessages[k..];
        assert s.received + content == s.received + Flatten(s.sentMessages[k..]);
        assert content == (s.received + content)[|s.received|..];
      }
    case _ =>
  }

  lemma {:induction false} FlattenSplit(ms: seq<Message>, k: nat)
    requires k <= |ms|
    ensures Flatten(ms) == Flatten(ms[..k]) + Flatten(ms[k..])
  {
    if k > 0 {
      FlattenSplit(ms[1..], k - 1);
      assert ms[..k][1..] == ms[1..][..k - 1] && ms[1..][k - 1..] == ms[k..];
    } else {
      assert ms[..0] == [] && ms[0..] == ms;
    }
  }

  /** The state after a run of steps in any interleaving; every state on the way satisfies the invariant. */
  ghost function Run(s: State, actions: seq<Action>): (t: State)
    requires Inv(s)
    ensures Inv(t)
    decreases actions
  {
    if actions == [] then s
    else
      assert Inv(Exec(s, actions[0])) by { WriterKeepsInv(s, actions[0]); ReaderKeepsInv(s, actions[0]); }
      Run(Exec(s, actions[0]), actions[1..])
  }

  /**
   * For every interleaving: the bytes received are a prefix of the bytes sent, in
   * a message buffer the messages received are a prefix of the messages sent, and
   * a space figure the writer is about to use never exceeds the space really free.
   */
  lemma SafeForEveryInterleaving(length: nat, isMessageBuffer: bool, actions: seq<Action>)
    requires length > 0
    ensures var s := Run(Init(length, isMessageBuffer), actions);
            && s.received <= s.sent
            && (s.isMessageBuffer ==>
                  && Parse(s.sent) == Some(s.sentMessages)
                  && Parse(s.received) == Some(s.receivedMessages)
                  && s.receivedMessages <= s.sentMessages)
            && (s.writer.Sized? ==> s.writer.space <= |s.store| - 1 - Used(|s.store|, s.tail, s.head))
  {
    var s := Run(Init(length, isMessageBuffer), actions);
    if s.isMessageBuffer {
      ParseFlatten(s.sentMessages);
      ParseFlatten(s.receivedMessages);
    }
  }
}
