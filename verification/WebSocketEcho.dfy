/**
 The frames of the transport check (sections 5.2 and 5.3 of RFC 6455): the client prints masked text
 frames, the server parses, unmasks and echoes them, and the client compares the echo. Both sides
 read from streams that deliver the bytes in segments of any sizes.
 */
module WebSocketEcho {
  import opened Wrappers
  import opened Bytes

  const FINAL_TEXT: Byte := 0x81

  /** A masking key of four bytes. */
  type Mask = m: seq<Byte> | |m| == 4 witness [0, 0, 0, 0]

  function Masked(data: seq<Byte>, mask: Mask): (r: seq<Byte>)
    ensures |r| == |data|
  {
    seq(|data|, i requires 0 <= i < |data| => Xor(data[i], mask[i % 4]))
  }

  /** `bytes([0x81, 0x80 | len])`, the mask and the masked payload; the second byte must be one. */
  function Frame(payload: seq<Byte>, mask: Mask): Option<seq<Byte>> {
    if |payload| > 255 then None
    else Some([FINAL_TEXT, 0x80 + |payload| % 0x80] + mask + Masked(payload, mask))
  }

  function Echo(payload: seq<Byte>): seq<Byte>
    requires |payload| < 256
  {
    [FINAL_TEXT, |payload|] + payload
  }

  /** The bytes of segments, put together. */
  function Flat(segments: seq<seq<Byte>>): seq<Byte> {
    if segments == [] then [] else segments[0] + Flat(segments[1..])
  }

  predicate NonEmptySegments(segments: seq<seq<Byte>>) {
    forall s :: s in segments ==> s != []
  }

  /** A connection's receiving side: the segments still to come. */
  class Stream {
    var segments: seq<seq<Byte>>

    ghost predicate Valid()
      reads this
    {
      NonEmptySegments(segments)
    }

    ghost function Bytes(): seq<Byte>
      reads this
    {
      Flat(segments)
    }

    constructor (segments: seq<seq<Byte>>)
      requires NonEmptySegments(segments)
      ensures Valid() && this.segments == segments
    {
      this.segments := segments;
    }

    /** `recv`: at most `limit` bytes of the next segment, and nothing only at the end. */
    method Recv(limit: nat) returns (part: seq<Byte>)
      requires Valid() && limit > 0
      modifies this
      ensures Valid() && |part| <= limit
      ensures old(Bytes()) == part + Bytes()
      ensures part == [] <==> old(Bytes()) == []
    {
      if segments == [] {
        return [];
      }
      var next := segments[0];
      assert next in segments;
      assert forall s :: s in segments[1..] ==> s in segments;
      if |next| <= limit {
        part := next;
        segments := segments[1..];
      } else {
        part := next[..limit];
        var kept := next[limit..];
        ghost var behind := Flat(segments[1..]);
        assert next + behind == part + (kept + behind);
        segments := [kept] + segments[1..];
        assert forall s :: s in segments ==> s == kept || s in old(segments)[1..];
        assert segments[1..] == old(segments)[1..];
      }
    }

    /** `read_exact`: the next `length` bytes whatever the segments, or an error at the end. */
    method ReadExact(length: nat) returns (result: Option<seq<Byte>>)
      requires Valid()
      modifies this
      ensures Valid()
      ensures |old(Bytes())| >= length ==> result == Some(old(Bytes())[..length]) && Bytes() == old(Bytes())[length..]
      ensures |old(Bytes())| < length ==> result.None?
    {
      var data := [];
      ghost var all := Bytes();
      while |data| < length
        invariant Valid() && |data| <= length
        invariant all == data + Bytes()
        decreases length - |data|
      {
        var part := Recv(length - |data|);
        if part == [] {
          return None;
        }
        data := data + part;
      }
      return Some(data);
    }

    /** A buffered `read`: as many of the next `length` bytes as there are. */
    method Read(length: nat) returns (data: seq<Byte>)
      requires Valid()
      modifies this
      ensures Valid() && data == Taken(old(Bytes()), length) && Bytes() == Left(old(Bytes()), length)
    {
      data := [];
      ghost var all := Bytes();
      while |data| < length
        invariant Valid() && |data| <= length
        invariant all == data + Bytes()
        decreases length - |data|
      {
        var part := Recv(length - |data|);
        if part == [] {
          break;
        }
        data := data + part;
      }
    }
  }

  function Taken(bytes: seq<Byte>, n: nat): seq<Byte> {
    if n <= |bytes| then bytes[..n] else bytes
  }

  function Left(bytes: seq<Byte>, n: nat): seq<Byte> {
    if n <= |bytes| then bytes[n..] else []
  }

  /** What the server makes of the next frame: the payload and the bytes behind it, or an error. */
  function Parse(bytes: seq<Byte>): Option<(seq<Byte>, seq<Byte>)> {
    if |bytes| < 2 || bytes[0] != FINAL_TEXT || bytes[1] < 0x80 || bytes[1] % 0x80 >= 126 then None
    else
      var size := bytes[1] % 0x80;
      var mask, data := Taken(bytes[2..], 4), Taken(Left(bytes[2..], 4), size);
      if |mask| < 4 then Some(([], []))
      else Some((Masked(data, mask), Left(Left(bytes[2..], 4), size)))
  }

  /** What the server sends when it serves `count` frames from these bytes. */
  function Served(bytes: seq<Byte>, count: nat): Option<seq<Byte>>
    decreases count
  {
    if count == 0 then Some([])
    else
      var frame := Parse(bytes);
      if frame.None? then None
      else
        ParsedIsShort(bytes);
        Prepend(Echo(frame.value.0), Served(frame.value.1, count - 1))
  }

  function Prepend(first: seq<Byte>, rest: Option<seq<Byte>>): Option<seq<Byte>> {
    if rest.None? then None else Some(first + rest.value)
  }

  lemma PrependTwice(a: seq<Byte>, b: seq<Byte>, rest: Option<seq<Byte>>)
    ensures Prepend(a, Prepend(b, rest)) == Prepend(a + b, rest)
    ensures Prepend([], rest) == rest
  {
    if rest.Some? {
      assert a + (b + rest.value) == a + b + rest.value;
      assert [] + rest.value == rest.value;
    }
  }

  lemma PrependNothing(a: seq<Byte>)
    ensures Prepend(a, None) == None && Prepend(a, Some([])) == Some(a)
  {
    assert a + [] == a;
  }

  lemma ParsedIsShort(bytes: seq<Byte>)
    requires Parse(bytes).Some?
    ensures |Parse(bytes).value.0| < 126
  {
  }

  /** One turn of the server's loop, up to the echo. */
  method ReadFrame(stream: Stream) returns (payload: Option<seq<Byte>>)
    requires stream.Valid()
    modifies stream
    ensures stream.Valid()
    ensures Parse(old(stream.Bytes())) == if payload.Some? then Some((payload.value, stream.Bytes())) else None
  {
    hide Masked, Flat, NonEmptySegments;
    var head := stream.Read(2);
    if !(|head| == 2 && head[0] == FINAL_TEXT && head[1] >= 0x80) {
      return None;
    }
    var size := head[1] % 0x80;
    if !(size < 126) {
      return None;
    }
    var mask := stream.Read(4);
    var data := stream.Read(size);
    return Some(if |mask| < 4 then [] else Masked(data, mask));
  }

  /** The server's loop: an assertion that fails ends the connection. */
  method Serve(stream: Stream, count: nat) returns (sent: Option<seq<Byte>>)
    requires stream.Valid()
    modifies stream
    ensures sent == Served(old(stream.Bytes()), count)
  {
    hide Parse, Echo, Prepend, Flat, NonEmptySegments;
    var output := [];
    PrependTwice([], [], Served(stream.Bytes(), count));
    for i := 0 to count
      invariant stream.Valid()
      invariant Served(old(stream.Bytes()), count) == Prepend(output, Served(stream.Bytes(), count - i))
    {
      ghost var bytes := stream.Bytes();
      var payload := ReadFrame(stream);
      if payload.None? {
        PrependNothing(output);
        return None;
      }
      ParsedIsShort(bytes);
      PrependTwice(output, Echo(payload.value), Served(stream.Bytes(), count - i - 1));
      output := output + Echo(payload.value);
    }
    PrependNothing(output);
    return Some(output);
  }

  /** The client's loop over the echoes: every comparison holds. */
  method Check(stream: Stream, payloads: seq<seq<Byte>>) returns (passed: bool)
    requires stream.Valid()
    modifies stream
    ensures stream.Valid()
    ensures passed <==> Echoed(old(stream.Bytes()), payloads).Some?
    ensures passed ==> Echoed(old(stream.Bytes()), payloads) == Some(stream.Bytes())
  {
    for i := 0 to |payloads|
      invariant stream.Valid()
      invariant Echoed(old(stream.Bytes()), payloads) == Echoed(stream.Bytes(), payloads[i..])
    {
      var payload := payloads[i];
      assert payloads[i..][0] == payload && payloads[i..][1..] == payloads[i + 1..];
      ghost var bytes := stream.Bytes();
      var head := stream.ReadExact(2);
      if head.None? || |payload| > 255 || head.value != [FINAL_TEXT, |payload|] {
        return false;
      }
      assert bytes[..2] == [bytes[0], bytes[1]];
      var body := stream.ReadExact(|payload|);
      if body.None? || body.value != payload {
        return false;
      }
    }
    return true;
  }

  /** The bytes left when the echoes of the payloads have been read and found right. */
  function Echoed(bytes: seq<Byte>, payloads: seq<seq<Byte>>): Option<seq<Byte>> {
    if payloads == [] then Some(bytes)
    else if |bytes| < 2 || |payloads[0]| > 255 || bytes[..2] != [FINAL_TEXT, |payloads[0]|] then None
    else if |bytes[2..]| < |payloads[0]| || bytes[2..][..|payloads[0]|] != payloads[0] then None
    else Echoed(bytes[2..][|payloads[0]|..], payloads[1..])
  }

  // The round trip

  lemma MaskedTwice(data: seq<Byte>, mask: Mask)
    ensures Masked(Masked(data, mask), mask) == data
  {
    forall i | 0 <= i < |data|
      ensures Masked(Masked(data, mask), mask)[i] == data[i]
    {
      XorTwice(data[i], mask[i % 4]);
    }
  }

  /** The bytes of a frame (section 5.2 of RFC 6455): a final text frame, the mask bit with the length, mask and data. */
  lemma FrameInBytes(payload: seq<Byte>, mask: Mask)
    ensures Frame(payload, mask).Some? <==> |payload| <= 255
    ensures |payload| < 128 ==>
              var bytes := Frame(payload, mask).value;
              && |bytes| == 6 + |payload| && bytes[..2] == [0x81, 0x80 + |payload|] && bytes[2..6] == mask
              && forall i :: 0 <= i < |payload| ==> bytes[6 + i] == Xor(payload[i], mask[i % 4])
    ensures |payload| < 256 ==> Echo(payload) == [0x81, |payload|] + payload
  {
  }

  /** A printed frame with anything behind it is parsed back, and nothing more is taken. */
  lemma ParseInvertsFrame(payload: seq<Byte>, mask: Mask, rest: seq<Byte>)
    requires |payload| < 126
    ensures Parse(Frame(payload, mask).value + rest) == Some((payload, rest))
  {
    var bytes := Frame(payload, mask).value + rest;
    assert bytes[0] == FINAL_TEXT && bytes[1] == 0x80 + |payload|;
    assert bytes[1] % 0x80 == |payload|;
    assert bytes[2..] == mask + (Masked(payload, mask) + rest);
    assert Taken(bytes[2..], 4) == mask;
    assert Left(bytes[2..], 4) == Masked(payload, mask) + rest;
    assert Taken(Masked(payload, mask) + rest, |payload|) == Masked(payload, mask);
    assert Left(Masked(payload, mask) + rest, |payload|) == rest;
    MaskedTwice(payload, mask);
  }

  /** All frames of a session, one after the other. */
  function Frames(payloads: seq<seq<Byte>>, masks: seq<Mask>): seq<Byte>
    requires |payloads| == |masks| && forall p :: p in payloads ==> |p| < 126
  {
    if payloads == [] then [] else Frame(payloads[0], masks[0]).value + Frames(payloads[1..], masks[1..])
  }

  function Echoes(payloads: seq<seq<Byte>>): seq<Byte>
    requires forall p :: p in payloads ==> |p| < 126
  {
    if payloads == [] then [] else Echo(payloads[0]) + Echoes(payloads[1..])
  }

  lemma {:induction false} ServedFrames(payloads: seq<seq<Byte>>, masks: seq<Mask>)
    requires |payloads| == |masks| && forall p :: p in payloads ==> |p| < 126
    ensures Served(Frames(payloads, masks), |payloads|) == Some(Echoes(payloads))
  {
    if payloads != [] {
      ParseInvertsFrame(payloads[0], masks[0], Frames(payloads[1..], masks[1..]));
      ServedFrames(payloads[1..], masks[1..]);
    }
  }

  lemma {:induction false} EchoesAreEchoed(payloads: seq<seq<Byte>>)
    requires forall p :: p in payloads ==> |p| < 126
    ensures Echoed(Echoes(payloads), payloads) == Some([])
  {
    if payloads != [] {
      var bytes := Echoes(payloads);
      assert bytes[..2] == [FINAL_TEXT, |payloads[0]|];
      assert bytes[2..] == payloads[0] + Echoes(payloads[1..]);
      EchoesAreEchoed(payloads[1..]);
    }
  }

  /**
   A whole session over real streams: however the frames are cut up on the way there and the echoes on
   the way back, the server answers every frame, every comparison holds, and no byte is left over.
   */
  method Session(payloads: seq<seq<Byte>>, masks: seq<Mask>, there: Stream, back: Stream)
    returns (sent: Option<seq<Byte>>, passed: bool)
    requires |payloads| == |masks| && (forall p :: p in payloads ==> |p| < 126)
    requires there.Valid() && there.Bytes() == Frames(payloads, masks)
    requires back.Valid() && back.Bytes() == Echoes(payloads) && there != back
    modifies there, back
    ensures sent == Some(old(back.Bytes()))
    ensures passed && back.Bytes() == []
  {
    ServedFrames(payloads, masks);
    EchoesAreEchoed(payloads);
    sent := Serve(there, |payloads|);
    passed := Check(back, payloads);
  }

  /** One exchange on its own: printing, serving and comparing. */
  predicate ExchangeSucceeds(payload: seq<Byte>, mask: Mask) {
    var frame := Frame(payload, mask);
    && frame.Some?
    && Served(frame.value, 1).Some?
    && Echoed(Served(frame.value, 1).value, [payload]) == Some([])
  }

  /** The one-byte length is the limit: the exchange works exactly for payloads under 126 bytes. */
  lemma ExchangeIffShort(payload: seq<Byte>, mask: Mask)
    ensures ExchangeSucceeds(payload, mask) <==> |payload| < 126
  {
    if |payload| < 126 {
      ServedFrames([payload], [mask]);
      EchoesAreEchoed([payload]);
      assert Frames([payload], [mask]) == Frame(payload, mask).value + Frames([], []);
      assert Frames([payload], [mask]) == Frame(payload, mask).value;
      assert Echoes([payload]) == Echo(payload) + Echoes([]);
    } else if |payload| < 256 && |payload| % 0x80 < 126 {
      var bytes := Frame(payload, mask).value;
      assert bytes[1] == 0x80 + |payload| % 0x80;
      var served := Served(bytes, 1);
      if served.Some? {
        ParsedIsShort(bytes);
        assert served.value[1] == |Parse(bytes).value.0| < 126;
      }
    }
  }
}
