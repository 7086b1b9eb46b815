/**
 * Circular byte stores and length-prefixed messages, as stream_buffer.c lays
 * them out.
 */
module Bytes {
  import opened Wrappers

  type Byte = b: nat | b < 256

  // ---- circular stores ---------------------------------------------------------

  /** The index `n` places after `p` in a store of length `length`. */
  function Step(length: nat, p: nat, n: nat): (q: nat)
    requires p < length && n <= length
    ensures q < length
  {
    if p + n >= length then p + n - length else p + n
  }

  /** How many places lie from `tail` up to `head`. */
  function Used(length: nat, tail: nat, head: nat): (n: nat)
    requires tail < length && head < length
    ensures n < length && Step(length, tail, n) == head
  {
    if head >= tail then head - tail else length + head - tail
  }

  /** The `n` bytes from index `from` on, wrapping at the end of the store. */
  function Slice(store: seq<Byte>, from: nat, n: nat): (s: seq<Byte>)
    requires from < |store| && n <= |store|
    ensures |s| == n
  {
    seq(n, i requires 0 <= i < n => store[Step(|store|, from, i)])
  }

  lemma SliceSplit(store: seq<Byte>, from: nat, m: nat, n: nat)
    requires from < |store| && m + n <= |store|
    ensures Slice(store, from, m + n) == Slice(store, from, m) + Slice(store, Step(|store|, from, m), n)
    ensures Slice(store, from, m + n)[..m] == Slice(store, from, m)
    ensures Slice(store, from, m + n)[m..] == Slice(store, Step(|store|, from, m), n)
  {
  }

  /** Two stores that agree on a stretch have the same slice there. */
  lemma SliceEqual(a: seq<Byte>, b: seq<Byte>, from: nat, n: nat)
    requires |a| == |b| && from < |a| && n <= |a|
    requires forall i :: 0 <= i < n ==> a[Step(|a|, from, i)] == b[Step(|a|, from, i)]
    ensures Slice(a, from, n) == Slice(b, from, n)
  {
  }

  // ---- messages ------------------------------------------------------------------

  // configMESSAGE_BUFFER_LENGTH_TYPE is size_t, four bytes here, least significant first.
  const LENGTH_BYTES: nat := 4
  const MAX_LENGTH: nat := 0xFFFF_FFFF

  function EncodeLength(n: nat): (s: seq<Byte>)
    requires n <= MAX_LENGTH
    ensures |s| == LENGTH_BYTES
  {
    [n % 256, n / 256 % 256, n / 0x1_0000 % 256, n / 0x100_0000]
  }

  function DecodeLength(s: seq<Byte>): (n: nat)
    requires |s| == LENGTH_BYTES
    ensures n <= MAX_LENGTH
  {
    s[0] as nat + 256 * s[1] as nat + 0x1_0000 * s[2] as nat + 0x100_0000 * s[3] as nat
  }

  lemma DecodeEncode(n: nat)
    requires n <= MAX_LENGTH
    ensures DecodeLength(EncodeLength(n)) == n
  {
    var a, b := n / 256, n / 0x1_0000;
    assert b == a / 256 && n / 0x100_0000 == b / 256;
  }

  lemma EncodeDecode(s: seq<Byte>)
    requires |s| == LENGTH_BYTES
    ensures EncodeLength(DecodeLength(s)) == s
  {
    var n := DecodeLength(s);
    var a, b := n / 256, n / 0x1_0000;
    assert a == s[1] as nat + 256 * s[2] as nat + 0x1_0000 * s[3] as nat;
    assert b == s[2] as nat + 256 * s[3] as nat && b == a / 256 && n / 0x100_0000 == b / 256;
  }

  /** A message that can be stored: not empty, and its length fits the length type. */
  type Message = m: seq<Byte> | 0 < |m| <= MAX_LENGTH witness [0]

  function Frame(m: seq<Byte>): seq<Byte>
    requires |m| <= MAX_LENGTH
  {
    EncodeLength(|m|) + m
  }

  /** The first message of a byte string, if the string starts with the whole frame of one. */
  function Head(s: seq<Byte>): (r: Option<Message>)
    ensures r.Some? ==> LENGTH_BYTES + |r.value| <= |s|
  {
    if |s| <= LENGTH_BYTES then None
    else
      var n := DecodeLength(s[..LENGTH_BYTES]);
      if n == 0 || n > |s| - LENGTH_BYTES then None
      else Some(s[LENGTH_BYTES..LENGTH_BYTES + n])
  }

  /** What follows the first message. */
  function Tail(s: seq<Byte>): seq<Byte>
    requires Head(s).Some?
  {
    s[LENGTH_BYTES + |Head(s).value|..]
  }

  /** Reads a byte string as a sequence of framed messages. */
  function Parse(s: seq<Byte>): Option<seq<Message>>
    decreases |s|
  {
    if s == [] then Some([])
    else if Head(s).None? || Parse(Tail(s)).None? then None
    else Some([Head(s).value] + Parse(Tail(s)).value)
  }

  lemma HeadOfFrame(m: Message, s: seq<Byte>)
    ensures Head(Frame(m) + s) == Some(m) && Tail(Frame(m) + s) == s
  {
    DecodeEncode(|m|);
    assert (Frame(m) + s)[..LENGTH_BYTES] == EncodeLength(|m|);
    assert (Frame(m) + s)[LENGTH_BYTES..LENGTH_BYTES + |m|] == m;
  }

  /** The frames of `ms` one after the other. */
  function Flatten(ms: seq<Message>): seq<Byte> {
    if ms == [] then [] else Frame(ms[0]) + Flatten(ms[1..])
  }

  lemma {:induction false} FlattenAppend(ms: seq<Message>, m: Message)
    ensures Flatten(ms + [m]) == Flatten(ms) + Frame(m)
  {
    if ms == [] {
      assert Flatten([m]) == Frame(m) + Flatten([]);
    } else {
      FlattenAppend(ms[1..], m);
      assert (ms + [m])[1..] == ms[1..] + [m];
    }
  }

  /** Parsing recovers exactly the messages that were framed. */
  lemma {:induction false} ParseFlatten(ms: seq<Message>)
    ensures Parse(Flatten(ms)) == Some(ms)
  {
    if ms != [] {
      HeadOfFrame(ms[0], Flatten(ms[1..]));
      ParseFlatten(ms[1..]);
      assert [ms[0]] + ms[1..] == ms;
    }
  }

  lemma FrameOfHead(s: seq<Byte>)
    requires Head(s).Some?
    ensures s == Frame(Head(s).value) + Tail(s)
  {
    EncodeDecode(s[..LENGTH_BYTES]);
  }

  /** Only strings made of whole frames parse. */
  lemma {:induction false} FlattenParse(s: seq<Byte>)
    requires Parse(s).Some?
    ensures Flatten(Parse(s).value) == s
    decreases |s|
  {
    if s != [] {
      FrameOfHead(s);
      FlattenParse(Tail(s));
      assert Parse(s).value[1..] == Parse(Tail(s)).value;
    }
  }

  /** Appending a frame appends one message to what the string parses to. */
  lemma ParseAppend(s: seq<Byte>, m: Message)
    requires Parse(s).Some?
    ensures Parse(s + Frame(m)) == Some(Parse(s).value + [m])
  {
    var ms := Parse(s).value;
    FlattenParse(s);
    FlattenAppend(ms, m);
    ParseFlatten(ms + [m]);
  }
}
