/** Length-prefixed frames (IpcFraming.hpp): a 32-bit little-endian length and the payload. */
module IpcFraming {
  import opened Options
  import opened Memory
  import opened Division

  type Payload = seq<byte>

  /** The frame of a payload; its length field holds the low 32 bits of the length. */
  function Frame(payload: Payload): seq<byte> { Bytes32(|payload|) + payload }

  /** The first frame of a buffer, if it is complete. */
  function Unframe(buf: seq<byte>): (r: Option<Payload>)
    ensures r.Some? ==> 4 + |r.value| <= |buf|
  {
    if |buf| < 4 then None
    else
      var len := Read32(buf, 0);
      if |buf| < 4 + len then None else Some(buf[4..4 + len])
  }

  method Encode(payload: Payload) returns (frame: seq<byte>)
    ensures frame == Frame(payload)
  {
    var len := |payload| % SPACE;
    var prefix := new byte[4];
    prefix[0] := len % 0x100;
    prefix[1] := (len / 0x100) % 0x100;
    prefix[2] := (len / 0x1_0000) % 0x100;
    prefix[3] := (len / 0x100_0000) % 0x100;
    PrefixBytes(|payload|);
    frame := prefix[..];
    frame := frame + payload;
  }

  lemma PrefixBytes(n: nat)
    ensures var len := n % SPACE;
            Bytes32(n) == [len % 0x100, (len / 0x100) % 0x100, (len / 0x1_0000) % 0x100, (len / 0x100_0000) % 0x100]
  {
    var len, q := n % SPACE, n / SPACE;
    FieldShift(len, n, 1, 0x100, 0x100_0000 * q);
    FieldShift(len, n, 0x100, 0x100, 0x1_0000 * q);
    FieldShift(len, n, 0x1_0000, 0x100, 0x100 * q);
    FieldShift(len, n, 0x100_0000, 0x100, q);
    DivideTwice(n, 0x100, 0x100);
    DivideTwice(n, 0x1_0000, 0x100);
  }

  method Decode(buf: seq<byte>) returns (ok: bool, payloadLen: nat, payload: Payload)
    ensures ok == Unframe(buf).Some?
    ensures ok ==> payload == Unframe(buf).value && payloadLen == |payload|
    ensures !ok ==> payload == [] && payloadLen == 0
  {
    if |buf| < 4 {
      return false, 0, [];
    }
    var len := Pack32(buf[0], buf[1], buf[2], buf[3]);
    if |buf| < 4 + len {
      return false, 0, [];
    }
    return true, len, buf[4..4 + len];
  }

  lemma FrameHead(payload: Payload, rest: seq<byte>)
    ensures var buf := Frame(payload) + rest;
            |buf| >= 4 && Read32(buf, 0) == |payload| % SPACE && buf[4..] == payload + rest
  {
    var buf := Frame(payload) + rest;
    Read32OfBytes(|payload|);
    assert buf[0] == Bytes32(|payload|)[0] && buf[1] == Bytes32(|payload|)[1] && buf[2] == Bytes32(|payload|)[2]
           && buf[3] == Bytes32(|payload|)[3];
  }

  /** Decoding gives an encoded payload back, whatever follows it, exactly when its length fits the
      32-bit field. */
  lemma RoundTrip(payload: Payload, rest: seq<byte>)
    ensures Unframe(Frame(payload) + rest) == Some(payload) <==> |payload| < SPACE
  {
    hide Frame, Read32;
    FrameHead(payload, rest);
    var buf := Frame(payload) + rest;
    var len := |payload| % SPACE;
    FrameSize(payload);
    assert len <= |payload| && |buf| >= 4 + len;
    assert buf[4..4 + len] == (payload + rest)[..len];
    if |payload| < SPACE { assert (payload + rest)[..|payload|] == payload; }
  }

  lemma FrameSize(payload: Payload)
    ensures |Frame(payload)| == 4 + |payload|
  {
  }

  /** Part of a frame decodes to nothing. */
  lemma Partial(payload: Payload, n: nat)
    requires |payload| < SPACE && n < |Frame(payload)|
    ensures Unframe(Frame(payload)[..n]) == None
  {
    hide Frame, Read32;
    FrameSize(payload);
    if n >= 4 {
      FrameHead(payload, []);
      assert Frame(payload) + [] == Frame(payload);
      SameHead(Frame(payload), n);
    }
  }

  lemma SameHead(s: seq<byte>, n: nat)
    requires 4 <= n <= |s|
    ensures Read32(s[..n], 0) == Read32(s, 0)
  {
  }

  // --------------------------------------------------------------------------------- streams

  function Frames(payloads: seq<Payload>): seq<byte>
  {
    if payloads == [] then [] else Frame(payloads[0]) + Frames(payloads[1..])
  }

  /** Decoding again and again until no complete frame is left. */
  function DecodeAll(buf: seq<byte>): seq<Payload>
    decreases |buf|
  {
    match Unframe(buf)
    case None => []
    case Some(payload) => [payload] + DecodeAll(buf[4 + |payload|..])
  }

  lemma NoFrames()
    ensures Frames([]) == []
  {
  }

  lemma {:induction false} FramesAppend(a: seq<Payload>, b: seq<Payload>)
    ensures Frames(a + b) == Frames(a) + Frames(b)
  {
    hide Frame;
    if a == [] {
      assert a + b == b;
    } else {
      assert (a + b)[1..] == a[1..] + b;
      FramesAppend(a[1..], b);
    }
  }

  lemma FramesOne(payload: Payload)
    ensures Frames([payload]) == Frame(payload)
  {
  }

  ghost predicate Sendable(payloads: seq<Payload>) { forall i :: 0 <= i < |payloads| ==> |payloads[i]| < SPACE }

  /** A strict part of some frame: what a failed write may leave behind. */
  ghost predicate CutShort(tail: seq<byte>)
  {
    exists payload: Payload :: |payload| < SPACE && |tail| < |Frame(payload)| && tail == Frame(payload)[..|tail|]
  }

  lemma NothingIsCut()
    ensures CutShort([])
  {
    var p: Payload := [];
    assert Frame(p)[..0] == [];
  }

  /** What a peer can decode of a stream of frames that ends in part of one: all of them; and cut
      anywhere, a prefix of them. */
  lemma {:induction false} CutDecodes(payloads: seq<Payload>, tail: seq<byte>, n: nat)
    requires Sendable(payloads) && CutShort(tail) && n <= |Frames(payloads) + tail|
    ensures DecodeAll((Frames(payloads) + tail)[..n]) <= payloads
    ensures n == |Frames(payloads) + tail| ==> DecodeAll((Frames(payloads) + tail)[..n]) == payloads
    decreases |payloads|
  {
    hide Frame, Unframe, Sendable;
    var s := (Frames(payloads) + tail)[..n];
    if payloads == [] {
      assert Frames(payloads) + tail == tail;
      TailDecodes(tail, n);
      DecodeNone(s);
    } else {
      var p, rest := payloads[0], payloads[1..];
      SendableTail(payloads);
      FrameSize(p);
      assert Frames(payloads) + tail == Frame(p) + (Frames(rest) + tail);
      if n < |Frame(p)| {
        assert s == Frame(p)[..n];
        Partial(p, n);
        DecodeNone(s);
      } else {
        var k := n - |Frame(p)|;
        assert s == Frame(p) + (Frames(rest) + tail)[..k];
        RoundTrip(p, (Frames(rest) + tail)[..k]);
        DecodeFirst(s, p);
        assert s[4 + |p|..] == (Frames(rest) + tail)[..k];
        CutDecodes(rest, tail, k);
        assert payloads == [p] + rest;
      }
    }
  }

  lemma SendableTail(payloads: seq<Payload>)
    requires Sendable(payloads) && payloads != []
    ensures |payloads[0]| < SPACE && Sendable(payloads[1..])
  {
  }

  lemma DecodeNone(buf: seq<byte>)
    requires Unframe(buf) == None
    ensures DecodeAll(buf) == []
  {
  }

  lemma DecodeFirst(buf: seq<byte>, payload: Payload)
    requires Unframe(buf) == Some(payload)
    ensures 4 + |payload| <= |buf| && DecodeAll(buf) == [payload] + DecodeAll(buf[4 + |payload|..])
  {
  }

  lemma TailDecodes(tail: seq<byte>, n: nat)
    requires CutShort(tail) && n <= |tail|
    ensures Unframe(tail[..n]) == None
  {
    hide Frame, Unframe;
    var payload :| |payload| < SPACE && |tail| < |Frame(payload)| && tail == Frame(payload)[..|tail|];
    assert tail[..n] == Frame(payload)[..n];
    Partial(payload, n);
  }
}
