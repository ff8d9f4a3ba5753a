/**
 WebSocket framing as the terminal socket does it (sections 5.2 and 5.3 of RFC 6455): a decoder that is
 fed the byte stream in arbitrary pieces, and an encoder for unmasked binary frames.
 */
module WebSocketFrames {
  import opened Text

  type Byte = b: int | 0 <= b < 256

  type Bytes = seq<Byte>

  datatype Frame = Frame(opcode: nat, payload: Bytes)

  // What can be read off the front of the buffer: where the mask key (if any) and the payload start.
  datatype Header = Header(opcode: nat, masked: bool, offset: nat, length: nat)

  datatype Parsed = Parsed(frame: Frame, size: nat)

  datatype Decoded = Decoded(frames: seq<Frame>, rest: Bytes)

  // What the terminal is told.
  datatype Effect = Write(text: Bytes) | Close

  // Lengths are exact as doubles below this.
  const SAFE_LENGTH: nat := 0x20_0000_0000_0000

  // ----- numbers and masks

  function Power256(k: nat): nat {
    if k == 0 then 1 else 256 * Power256(k - 1)
  }

  function BigEndian(bytes: Bytes): nat {
    if bytes == [] then 0 else 256 * BigEndian(bytes[..|bytes| - 1]) + bytes[|bytes| - 1]
  }

  function ToBigEndian(n: nat, k: nat): (r: Bytes)
    ensures |r| == k
  {
    if k == 0 then [] else ToBigEndian(n / 256, k - 1) + [n % 256]
  }

  lemma {:induction false} BigEndianRoundTrip(n: nat, k: nat)
    requires n < Power256(k)
    ensures BigEndian(ToBigEndian(n, k)) == n
  {
    if k > 0 {
      BigEndianRoundTrip(n / 256, k - 1);
      var r := ToBigEndian(n, k);
      assert r[..k - 1] == ToBigEndian(n / 256, k - 1);
    }
  }

  lemma {:induction false} BigEndianIsInjective(bytes: Bytes)
    ensures ToBigEndian(BigEndian(bytes), |bytes|) == bytes
    ensures BigEndian(bytes) < Power256(|bytes|)
  {
    if bytes != [] {
      BigEndianIsInjective(bytes[..|bytes| - 1]);
    }
  }

  // Network byte order: the first octet counts most.
  lemma {:induction false} FirstOctetCountsMost(b: Byte, rest: Bytes)
    ensures BigEndian([b] + rest) == b * Power256(|rest|) + BigEndian(rest)
  {
    if rest == [] {
      assert [b] + rest == [b] && [b][..0] == [];
    } else {
      var init, last := rest[..|rest| - 1], rest[|rest| - 1];
      assert ([b] + rest)[..|rest|] == [b] + init;
      FirstOctetCountsMost(b, init);
      Distributes(b, Power256(|init|), BigEndian(init));
    }
  }

  lemma Distributes(b: nat, p: nat, n: nat)
    ensures 256 * (b * p + n) == b * (256 * p) + 256 * n
  {
  }

  // Exclusive or of the k low bits.
  function Xor(a: nat, b: nat, k: nat): nat {
    if k == 0 then 0 else XorBit(a % 2, b % 2) + 2 * Xor(a / 2, b / 2, k - 1)
  }

  function XorBit(a: nat, b: nat): (c: nat)
    requires a < 2 && b < 2
    ensures c < 2
  {
    if a == b then 0 else 1
  }

  function Power2(k: nat): (p: nat)
    ensures p > 0
  {
    if k == 0 then 1 else 2 * Power2(k - 1)
  }

  lemma {:induction false} XorTwice(a: nat, b: nat, k: nat)
    requires a < Power2(k)
    ensures Xor(a, b, k) < Power2(k)
    ensures Xor(Xor(a, b, k), b, k) == a
  {
    if k > 0 {
      XorTwice(a / 2, b / 2, k - 1);
    }
  }

  function XorByte(a: Byte, b: Byte): Byte {
    assert Power2(8) == 256 by { assert Power2(4) == 16; }
    XorTwice(a, b, 8);
    Xor(a, b, 8)
  }

  lemma XorByteTwice(a: Byte, b: Byte)
    ensures XorByte(XorByte(a, b), b) == a
  {
    assert Power2(8) == 256 by { assert Power2(4) == 16; }
    XorTwice(a, b, 8);
  }

  // Bit i, counted from the lowest.
  function Bit(n: nat, i: nat): nat
    decreases i
  {
    if i == 0 then n % 2 else Bit(n / 2, i - 1)
  }

  lemma {:induction false} XorOfBits(a: nat, b: nat, k: nat, i: nat)
    requires i < k
    ensures Bit(Xor(a, b, k), i) == 1 <==> Bit(a, i) != Bit(b, i)
    decreases i
  {
    if i > 0 { XorOfBits(a / 2, b / 2, k - 1, i - 1); }
  }

  // A bit is set exactly if it is set in one of the two.
  lemma XorByteOfBits(a: Byte, b: Byte, i: nat)
    requires i < 8
    ensures Bit(XorByte(a, b), i) == 1 <==> Bit(a, i) != Bit(b, i)
  {
    XorOfBits(a, b, 8, i);
  }

  // Octet i of the payload is combined with octet i modulo 4 of the key (section 5.3 of RFC 6455).
  function ApplyMask(data: Bytes, key: Bytes): (r: Bytes)
    requires |key| == 4
    ensures |r| == |data|
  {
    seq(|data|, i requires 0 <= i < |data| => XorByte(data[i], key[i % 4]))
  }

  lemma MaskedAt(data: Bytes, key: Bytes, i: nat, m: nat)
    requires |key| == 4 && i < |data| && m == i % 4
    ensures ApplyMask(data, key)[i] == XorByte(data[i], key[m])
  {
  }

  lemma RestIsMasked(data: Bytes, key: Bytes, four: Bytes, rest: Bytes)
    requires |key| == 4 == |four| && data == four + rest
    ensures ApplyMask(data, key)[4..] == ApplyMask(rest, key)
  {
    var masked, more := ApplyMask(data, key)[4..], ApplyMask(rest, key);
    forall i | 0 <= i < |rest| ensures masked[i] == more[i] {
      MaskedAt(data, key, 4 + i, i % 4);
      MaskedAt(rest, key, i, i % 4);
    }
  }

  lemma FourInFront(s: Bytes, a: Byte, b: Byte, c: Byte, d: Byte)
    requires |s| >= 4 && s[0] == a && s[1] == b && s[2] == c && s[3] == d
    ensures s == [a, b, c, d] + s[4..]
  {
  }

  // The octets of the key are used in turn, and from the first again after four.
  lemma MaskByFours(a: Byte, b: Byte, c: Byte, d: Byte, rest: Bytes, key: Bytes)
    requires |key| == 4
    ensures ApplyMask([a, b, c, d] + rest, key)
         == [XorByte(a, key[0]), XorByte(b, key[1]), XorByte(c, key[2]), XorByte(d, key[3])] + ApplyMask(rest, key)
  {
    var four, data := [a, b, c, d], [a, b, c, d] + rest;
    RestIsMasked(data, key, four, rest);
    MaskedAt(data, key, 0, 0);
    MaskedAt(data, key, 1, 1);
    MaskedAt(data, key, 2, 2);
    MaskedAt(data, key, 3, 3);
    FourInFront(ApplyMask(data, key), XorByte(a, key[0]), XorByte(b, key[1]), XorByte(c, key[2]), XorByte(d, key[3]));
  }

  lemma MaskTwice(data: Bytes, key: Bytes)
    requires |key| == 4
    ensures ApplyMask(ApplyMask(data, key), key) == data
  {
    forall i | 0 <= i < |data|
      ensures ApplyMask(ApplyMask(data, key), key)[i] == data[i]
    {
      XorByteTwice(data[i], key[i % 4]);
    }
  }

  // ----- decoding

  // The length field: seven bits in the second byte, or two or eight more bytes behind it.
  function ReadHeader(buf: Bytes): Option<Header> {
    if |buf| < 2 then None else ReadLength(buf, buf[0] % 16, buf[1] >= 128, buf[1] % 128)
  }

  function ReadLength(buf: Bytes, opcode: nat, masked: bool, short: nat): Option<Header>
    requires |buf| >= 2
  {
    if short == 126 then
      if |buf| < 4 then None else Some(Header(opcode, masked, 4, BigEndian(buf[2..4])))
    else if short == 127 then
      if |buf| < 10 then None else Some(Header(opcode, masked, 10, BigEndian(buf[2..10])))
    else
      Some(Header(opcode, masked, 2, short))
  }

  function KeySize(masked: bool): nat {
    if masked then 4 else 0
  }

  // The first frame in the buffer, once all of it has arrived.
  function NextFrame(buf: Bytes): Option<Parsed> {
    match ReadHeader(buf)
    case None => None
    case Some(h) => ReadPayload(buf, h)
  }

  function ReadPayload(buf: Bytes, h: Header): Option<Parsed> {
    var start := h.offset + KeySize(h.masked);
    if |buf| < start + h.length then None
    else
      var data := buf[start..start + h.length];
      Some(Parsed(
        Frame(h.opcode, if h.masked then ApplyMask(data, buf[h.offset..h.offset + 4]) else data),
        start + h.length))
  }

  lemma FrameSize(buf: Bytes)
    requires NextFrame(buf).Some?
    ensures 2 <= NextFrame(buf).value.size <= |buf|
  {
  }

  function DecodeAll(buf: Bytes): Decoded
    decreases |buf|
  {
    match NextFrame(buf)
    case None => Decoded([], buf)
    case Some(p) =>
      FrameSize(buf);
      After([p.frame], DecodeAll(buf[p.size..]))
  }

  function After(frames: seq<Frame>, later: Decoded): Decoded {
    Decoded(frames + later.frames, later.rest)
  }

  lemma AfterAfter(f: seq<Frame>, g: seq<Frame>, later: Decoded)
    ensures After(f, After(g, later)) == After(f + g, later)
  {
    assert f + (g + later.frames) == f + g + later.frames;
  }

  // ----- the bytes of a frame are decided by themselves

  lemma HeaderStable(a: Bytes, b: Bytes)
    requires ReadHeader(a).Some?
    ensures ReadHeader(a + b) == ReadHeader(a)
  {
    if |a| >= 4 { assert (a + b)[2..4] == a[2..4]; }
    if |a| >= 10 { assert (a + b)[2..10] == a[2..10]; }
  }

  lemma PayloadStable(a: Bytes, b: Bytes, h: Header)
    requires ReadPayload(a, h).Some?
    ensures ReadPayload(a + b, h) == ReadPayload(a, h)
  {
    var start := h.offset + KeySize(h.masked);
    assert (a + b)[start..start + h.length] == a[start..start + h.length];
    if h.masked {
      assert (a + b)[h.offset..h.offset + 4] == a[h.offset..h.offset + 4];
    }
  }

  lemma NextFrameStable(a: Bytes, b: Bytes)
    requires NextFrame(a).Some?
    ensures NextFrame(a + b) == NextFrame(a)
  {
    HeaderStable(a, b);
    PayloadStable(a, b, ReadHeader(a).value);
  }

  lemma StepWithMore(a: Bytes, b: Bytes, p: Parsed)
    requires NextFrame(a) == Some(p)
    ensures p.size <= |a|
    ensures DecodeAll(a + b) == After([p.frame], DecodeAll(a[p.size..] + b))
  {
    FrameSize(a);
    NextFrameStable(a, b);
    assert (a + b)[p.size..] == a[p.size..] + b;
  }

  // Decoding may stop anywhere and go on with what it left over.
  lemma {:induction false} DecodeInTwo(a: Bytes, b: Bytes)
    ensures DecodeAll(a + b) == After(DecodeAll(a).frames, DecodeAll(DecodeAll(a).rest + b))
    decreases |a|
  {
    match NextFrame(a)
    case None =>
    case Some(p) =>
      StepWithMore(a, b, p);
      DecodeInTwo(a[p.size..], b);
      var d := DecodeAll(a[p.size..]);
      AfterAfter([p.frame], d.frames, DecodeAll(d.rest + b));
  }

  lemma {:induction false} NothingLeft(buf: Bytes)
    ensures NextFrame(DecodeAll(buf).rest).None?
    decreases |buf|
  {
    match NextFrame(buf)
    case None => {}
    case Some(p) =>
      NothingLeft(buf[p.size..]);
  }

  // The decoder fed one data event after another.
  function Stream(pending: Bytes, chunks: seq<Bytes>): Decoded
    decreases |chunks|
  {
    if chunks == [] then Decoded([], pending)
    else
      var now := DecodeAll(pending + chunks[0]);
      After(now.frames, Stream(now.rest, chunks[1..]))
  }

  function Concat(chunks: seq<Bytes>): Bytes
    decreases |chunks|
  {
    if chunks == [] then [] else chunks[0] + Concat(chunks[1..])
  }

  lemma ConcatCons(pending: Bytes, chunks: seq<Bytes>)
    requires chunks != []
    ensures pending + Concat(chunks) == pending + chunks[0] + Concat(chunks[1..])
  {
  }

  lemma {:induction false} ChunkingIsInvisible(pending: Bytes, chunks: seq<Bytes>)
    requires NextFrame(pending).None?
    ensures Stream(pending, chunks) == DecodeAll(pending + Concat(chunks))
    decreases |chunks|
  {
    if chunks == [] {
      assert pending + Concat(chunks) == pending;
    } else {
      StreamStep(pending, chunks);
    }
  }

  lemma {:induction false} StreamStep(pending: Bytes, chunks: seq<Bytes>)
    requires chunks != []
    ensures Stream(pending, chunks) == DecodeAll(pending + Concat(chunks))
    decreases |chunks|, 0
  {
    var sofar := pending + chunks[0];
    var now := DecodeAll(sofar);
    NothingLeft(sofar);
    ChunkingIsInvisible(now.rest, chunks[1..]);
    DecodeInTwo(sofar, Concat(chunks[1..]));
    ConcatCons(pending, chunks);
  }

  // ----- encoding

  function ShortLength(n: nat): (s: nat)
    ensures s < 128
  {
    if n < 126 then n else if n < 65536 then 126 else 127
  }

  function LongLength(n: nat): Bytes {
    if n < 126 then [] else if n < 65536 then ToBigEndian(n, 2) else ToBigEndian(n, 8)
  }

  function EncodeHeader(first: Byte, masked: bool, n: nat): Bytes {
    [first, ShortLength(n) + if masked then 128 else 0] + LongLength(n)
  }

  function EncodeBody(key: Option<Bytes>, payload: Bytes): Bytes
    requires key.Some? ==> |key.value| == 4
  {
    match key
    case None => payload
    case Some(k) => k + ApplyMask(payload, k)
  }

  // A frame with the given first byte, in the form that takes the fewest bytes; a key makes it masked.
  function EncodeFrame(first: Byte, key: Option<Bytes>, payload: Bytes): Bytes
    requires key.Some? ==> |key.value| == 4
  {
    EncodeHeader(first, key.Some?, |payload|) + EncodeBody(key, payload)
  }

  // The frames the terminal sends: final, binary, unmasked.
  function Encode(payload: Bytes): Bytes {
    EncodeFrame(0x82, None, payload)
  }

  lemma ShortHeaderReads(first: Byte, masked: bool, n: nat, rest: Bytes)
    requires n < 126
    ensures ReadHeader(EncodeHeader(first, masked, n) + rest) == Some(Header(first % 16, masked, 2, n))
  {
  }

  lemma LongHeaderReads(first: Byte, masked: bool, n: nat, rest: Bytes)
    requires 126 <= n < SAFE_LENGTH
    ensures ReadHeader(EncodeHeader(first, masked, n) + rest)
         == Some(Header(first % 16, masked, 2 + |LongLength(n)|, n))
  {
    var w := EncodeHeader(first, masked, n) + rest;
    var size := if n < 65536 then 2 else 8;
    BigEndianRoundTrip(n, size);
    assert w[0] == first && w[1] % 128 == ShortLength(n);
    assert w[2..2 + size] == LongLength(n);
  }

  lemma HeaderReads(first: Byte, masked: bool, n: nat, rest: Bytes)
    requires n < SAFE_LENGTH
    ensures ReadHeader(EncodeHeader(first, masked, n) + rest)
         == Some(Header(first % 16, masked, |EncodeHeader(first, masked, n)|, n))
  {
    if n < 126 { ShortHeaderReads(first, masked, n, rest); } else { LongHeaderReads(first, masked, n, rest); }
  }

  lemma BodyReads(head: Bytes, opcode: nat, key: Option<Bytes>, payload: Bytes, tail: Bytes)
    requires key.Some? ==> |key.value| == 4
    ensures ReadPayload(head + (EncodeBody(key, payload) + tail), Header(opcode, key.Some?, |head|, |payload|))
         == Some(Parsed(Frame(opcode, payload), |head| + |EncodeBody(key, payload)|))
  {
    var w := head + (EncodeBody(key, payload) + tail);
    var start := |head| + KeySize(key.Some?);
    if key.Some? {
      MaskTwice(payload, key.value);
      assert w[|head|..|head| + 4] == key.value;
      assert w[start..start + |payload|] == ApplyMask(payload, key.value);
    } else {
      assert w[start..start + |payload|] == payload;
    }
  }

  lemma RoundTrip(first: Byte, key: Option<Bytes>, payload: Bytes, tail: Bytes)
    requires key.Some? ==> |key.value| == 4
    requires |payload| < SAFE_LENGTH
    ensures NextFrame(EncodeFrame(first, key, payload) + tail)
         == Some(Parsed(Frame(first % 16, payload), |EncodeFrame(first, key, payload)|))
  {
    var head := EncodeHeader(first, key.Some?, |payload|);
    var more := EncodeBody(key, payload) + tail;
    assert EncodeFrame(first, key, payload) + tail == head + more;
    HeaderReads(first, key.Some?, |payload|, more);
    BodyReads(head, first % 16, key, payload, tail);
  }

  // ----- the encoder's form is the shortest, and the only one of its size

  lemma HeaderIsMinimal(w: Bytes, h: Header)
    requires ReadHeader(w) == Some(h)
    ensures 2 + |LongLength(h.length)| <= h.offset
  {
    if h.offset == 4 { BigEndianIsInjective(w[2..4]); }
  }

  lemma EncodingIsMinimal(w: Bytes, payload: Bytes)
    requires NextFrame(w).Some? && NextFrame(w).value.frame.payload == payload
    ensures |Encode(payload)| <= NextFrame(w).value.size
  {
    var h := ReadHeader(w).value;
    HeaderIsMinimal(w, h);
  }

  lemma HeaderIsCanonical(w: Bytes, h: Header)
    requires ReadHeader(w) == Some(h)
    requires !h.masked && h.offset == 2 + |LongLength(h.length)|
    ensures h.offset <= |w|
    ensures w[..h.offset] == EncodeHeader(w[0], false, h.length)
  {
    if h.offset > 2 {
      BigEndianIsInjective(w[2..h.offset]);
    }
  }

  // What the terminal sends, octet by octet.
  lemma EncodingIsSpelled(payload: Bytes)
    ensures var n := |payload|;
            && (n < 126 ==> Encode(payload) == [0x82, n] + payload)
            && (126 <= n < 65536 ==> Encode(payload) == [0x82, 126, n / 256, n % 256] + payload)
            && (65536 <= n ==> Encode(payload) == [0x82, 127] + ToBigEndian(n, 8) + payload)
  {
    var n := |payload|;
    if 126 <= n < 65536 {
      TwoOctets(n);
      assert [0x82, 126] + [n / 256, n % 256] == [0x82, 126, n / 256, n % 256];
    }
  }

  lemma TwoOctets(n: nat)
    requires n < 65536
    ensures ToBigEndian(n, 2) == [n / 256, n % 256]
  {
    assert ToBigEndian(n / 256 / 256, 0) == [];
    assert ToBigEndian(n / 256, 1) == [] + [n / 256 % 256];
  }

  // Whoever else encodes the payload as one final binary frame, in as many bytes, writes the same bytes.
  lemma EncodingIsCanonical(w: Bytes, payload: Bytes)
    requires NextFrame(w) == Some(Parsed(Frame(2, payload), |w|))
    requires w[0] == 0x82 && |w| == |Encode(payload)|
    ensures w == Encode(payload)
  {
    var h := ReadHeader(w).value;
    HeaderIsMinimal(w, h);
    HeaderIsCanonical(w, h);
    assert w[h.offset..] == payload;
    assert w == w[..h.offset] + w[h.offset..];
  }

  // ----- a whole conversation

  datatype Sent = Sent(first: Byte, key: Option<Bytes>, payload: Bytes)

  predicate Sendable(s: Sent) {
    && (s.key.Some? ==> |s.key.value| == 4)
    && |s.payload| < SAFE_LENGTH
  }

  predicate AllSendable(list: seq<Sent>) {
    list == [] || (Sendable(list[0]) && AllSendable(list[1..]))
  }

  function EncodeAll(list: seq<Sent>): Bytes
    requires AllSendable(list)
  {
    if list == [] then [] else EncodeFrame(list[0].first, list[0].key, list[0].payload) + EncodeAll(list[1..])
  }

  function FramesOf(list: seq<Sent>): seq<Frame> {
    if list == [] then [] else [Frame(list[0].first % 16, list[0].payload)] + FramesOf(list[1..])
  }

  lemma FirstDecodes(s: Sent, more: Bytes)
    requires Sendable(s)
    ensures DecodeAll(EncodeFrame(s.first, s.key, s.payload) + more)
         == After([Frame(s.first % 16, s.payload)], DecodeAll(more))
  {
    var w := EncodeFrame(s.first, s.key, s.payload);
    RoundTrip(s.first, s.key, s.payload, more);
    assert (w + more)[|w|..] == more;
  }

  lemma EncodeAllCons(list: seq<Sent>, tail: Bytes)
    requires list != [] && AllSendable(list)
    ensures EncodeAll(list) + tail
         == EncodeFrame(list[0].first, list[0].key, list[0].payload) + (EncodeAll(list[1..]) + tail)
  {
  }

  lemma {:induction false} EncodedDecodes(list: seq<Sent>, tail: Bytes)
    requires AllSendable(list)
    requires NextFrame(tail).None?
    ensures DecodeAll(EncodeAll(list) + tail) == Decoded(FramesOf(list), tail)
  {
    if list == [] {
      assert EncodeAll(list) + tail == tail;
    } else {
      EncodeAllCons(list, tail);
      EncodedDecodes(list[1..], tail);
      FirstDecodes(list[0], EncodeAll(list[1..]) + tail);
    }
  }

  // However the network cuts the bytes of a conversation, exactly its frames come out.
  lemma ConversationArrives(list: seq<Sent>, chunks: seq<Bytes>, tail: Bytes)
    requires AllSendable(list)
    requires Concat(chunks) == EncodeAll(list) + tail
    requires NextFrame(tail).None?
    ensures Stream([], chunks) == Decoded(FramesOf(list), tail)
  {
    assert [] + Concat(chunks) == Concat(chunks);
    EncodedDecodes(list, tail);
    ChunkingIsInvisible([], chunks);
  }

  // ----- what the terminal is told

  // Text and binary frames are written, a close frame closes; anything else (continuations, pings) is passed over.
  function EffectOf(f: Frame): seq<Effect> {
    if f.opcode == 1 || f.opcode == 2 then [Write(f.payload)]
    else if f.opcode == 8 then [Close]
    else []
  }

  function Effects(frames: seq<Frame>): seq<Effect> {
    if frames == [] then [] else EffectOf(frames[0]) + Effects(frames[1..])
  }

  lemma {:induction false} EffectsOfTwo(f: seq<Frame>, g: seq<Frame>)
    ensures Effects(f + g) == Effects(f) + Effects(g)
  {
    if f == [] {
      assert f + g == g;
    } else {
      assert (f + g)[1..] == f[1..] + g;
      EffectsOfTwo(f[1..], g);
    }
  }

  function Written(effects: seq<Effect>): Bytes {
    if effects == [] then [] else (if effects[0].Write? then effects[0].text else []) + Written(effects[1..])
  }

  // The opcodes of the frames that carry a message: a text or binary frame begins one, frames of opcode 0
  // continue it (sections 5.4 and 5.6 of RFC 6455).
  predicate Begins(f: Frame) {
    f.opcode == 1 || f.opcode == 2
  }

  predicate Continues(f: Frame) {
    f.opcode == 0
  }

  // All that the messages say; what control frames carry is no part of it.
  function MessageText(frames: seq<Frame>): Bytes {
    if frames == [] then []
    else (if Begins(frames[0]) || Continues(frames[0]) then frames[0].payload else []) + MessageText(frames[1..])
  }

  predicate NoContinuationText(frames: seq<Frame>) {
    frames == [] || ((Continues(frames[0]) ==> frames[0].payload == []) && NoContinuationText(frames[1..]))
  }

  lemma WrittenOne(f: Frame, later: seq<Effect>)
    ensures Written(EffectOf(f) + later)
         == (if f.opcode == 1 || f.opcode == 2 then f.payload else []) + Written(later)
  {
    if f.opcode == 1 || f.opcode == 2 {
      assert ([Write(f.payload)] + later)[1..] == later;
    } else if f.opcode == 8 {
      assert ([Close] + later)[1..] == later;
    } else {
      assert [] + later == later;
    }
  }

  lemma Cancel(a: Bytes, w: Bytes, p: Bytes)
    ensures a + w == a + p <==> w == p
  {
    assert (a + w)[|a|..] == w;
    assert (a + p)[|a|..] == p;
  }

  // The terminal gets all that the messages say exactly if no continuation frame says anything.
  lemma {:induction false} AllIsWrittenIff(frames: seq<Frame>)
    ensures |Written(Effects(frames))| <= |MessageText(frames)|
    ensures Written(Effects(frames)) == MessageText(frames) <==> NoContinuationText(frames)
  {
    if frames != [] {
      var f := frames[0];
      AllIsWrittenIff(frames[1..]);
      WrittenOne(f, Effects(frames[1..]));
      var w, p := Written(Effects(frames[1..])), MessageText(frames[1..]);
      if Begins(f) {
        Cancel(f.payload, w, p);
      } else {
        assert Written(Effects(frames)) == w;
        if Continues(f) && f.payload != [] {
          assert |w| < |MessageText(frames)|;
        } else {
          assert [] + p == p;
        }
      }
    }
  }

  predicate OnlyContinues(list: seq<Sent>) {
    list == [] || (list[0].first % 16 == 0 && OnlyContinues(list[1..]))
  }

  lemma {:induction false} NothingOfContinuations(list: seq<Sent>)
    requires OnlyContinues(list)
    ensures Effects(FramesOf(list)) == []
  {
    if list != [] {
      NothingOfContinuations(list[1..]);
      var f := Frame(list[0].first % 16, list[0].payload);
      assert FramesOf(list)[1..] == FramesOf(list[1..]);
      assert EffectOf(f) == [];
    }
  }

  // Of a message in fragments, masked or not and however the bytes are cut, the first fragment is all that arrives.
  lemma OnlyFirstFragmentArrives(begin: Sent, more: seq<Sent>, chunks: seq<Bytes>)
    requires begin.first % 16 == 1 || begin.first % 16 == 2
    requires OnlyContinues(more) && AllSendable([begin] + more)
    requires Concat(chunks) == EncodeAll([begin] + more)
    ensures Effects(Stream([], chunks).frames) == [Write(begin.payload)]
  {
    var list := [begin] + more;
    assert list[1..] == more;
    assert EncodeAll(list) + [] == EncodeAll(list);
    ConversationArrives(list, chunks, []);
    var f := Frame(begin.first % 16, begin.payload);
    assert FramesOf(list)[1..] == FramesOf(more);
    NothingOfContinuations(more);
    assert EffectOf(f) + [] == [Write(begin.payload)];
  }

  lemma EncodedTwo(a: Sent, b: Sent)
    requires Sendable(a) && Sendable(b)
    ensures AllSendable([a, b])
    ensures EncodeAll([a, b]) == EncodeFrame(a.first, a.key, a.payload) + EncodeFrame(b.first, b.key, b.payload)
    ensures FramesOf([a, b]) == [Frame(a.first % 16, a.payload), Frame(b.first % 16, b.payload)]
  {
    assert [a, b][1..] == [b] && [b][1..] == [];
    EncodeAllCons([b], []);
    assert FramesOf([b]) == [Frame(b.first % 16, b.payload)];
  }

  lemma TwoFragments(a: Sent, b: Sent)
    requires Sendable(a) && Sendable(b) && a.first % 16 == 1 && b.first % 16 == 0
    ensures DecodeAll(EncodeAll([a, b])).frames == [Frame(1, a.payload), Frame(0, b.payload)]
    ensures Written(Effects(DecodeAll(EncodeAll([a, b])).frames)) == a.payload
  {
    EncodedTwo(a, b);
    assert EncodeAll([a, b]) + [] == EncodeAll([a, b]);
    EncodedDecodes([a, b], []);
    var f, g := Frame(1, a.payload), Frame(0, b.payload);
    assert [f, g][1..] == [g] && [g][1..] == [];
    assert Effects([g]) == [];
    WrittenOne(f, []);
    assert Effects([f, g]) == EffectOf(f) + [];
  }

  // The text "hi" in two frames: the first byte of one says that there is more to come, that of the other that
  // this is the end of the message. Only the "h" is written.
  lemma SecondFragmentIsLost(key: Option<Bytes>, a: Sent, b: Sent)
    requires key.Some? ==> |key.value| == 4
    requires a == Sent(0x01, key, [104]) && b == Sent(0x80, key, [105])
    ensures AllSendable([a, b]) && DecodeAll(EncodeAll([a, b])).frames == [Frame(1, [104]), Frame(0, [105])]
    ensures Written(Effects(DecodeAll(EncodeAll([a, b])).frames)) == [104]
  {
    EncodedTwo(a, b);
    TwoFragments(a, b);
  }

  lemma {:induction false} FramesOfTwo(a: seq<Sent>, b: seq<Sent>)
    ensures FramesOf(a + b) == FramesOf(a) + FramesOf(b)
  {
    if a == [] {
      assert a + b == b;
    } else {
      assert (a + b)[1..] == a[1..] + b;
      FramesOfTwo(a[1..], b);
    }
  }

  // What a frame tells the terminal, whatever frames are around it and however the bytes are cut: a text or binary frame
  // writes its payload, a close frame closes, any other frame says nothing; each behind what the frames before it say.
  lemma FrameIsTold(before: seq<Sent>, s: Sent, more: seq<Sent>, chunks: seq<Bytes>, tail: Bytes)
    requires AllSendable(before + [s] + more) && NextFrame(tail).None?
    requires Concat(chunks) == EncodeAll(before + [s] + more) + tail
    ensures var told, a, b := Effects(Stream([], chunks).frames), Effects(FramesOf(before)), Effects(FramesOf(more));
            && (s.first % 16 == 1 || s.first % 16 == 2 ==> told == a + [Write(s.payload)] + b)
            && (s.first % 16 == 8 ==> told == a + [Close] + b)
            && (s.first % 16 !in {1, 2, 8} ==> told == a + b)
  {
    ConversationArrives(before + [s] + more, chunks, tail);
    FramesOfTwo(before + [s], more);
    FramesOfTwo(before, [s]);
    EffectsOfTwo(FramesOf(before) + FramesOf([s]), FramesOf(more));
    EffectsOfTwo(FramesOf(before), FramesOf([s]));
    OneFrame(s);
    assert Effects(FramesOf(before)) + [] == Effects(FramesOf(before));
  }

  lemma OneFrame(s: Sent)
    ensures var told := Effects(FramesOf([s]));
            && (s.first % 16 == 1 || s.first % 16 == 2 ==> told == [Write(s.payload)])
            && (s.first % 16 == 8 ==> told == [Close])
            && (s.first % 16 !in {1, 2, 8} ==> told == [])
  {
    var f := Frame(s.first % 16, s.payload);
    assert FramesOf([s]) == [f] + [] == [f];
    assert Effects([f]) == EffectOf(f) + [];
  }

  function Closes(effects: seq<Effect>): nat {
    if effects == [] then 0 else (if effects[0].Close? then 1 else 0) + Closes(effects[1..])
  }

  function CloseFrames(list: seq<Sent>): nat {
    if list == [] then 0 else (if list[0].first % 16 == 8 then 1 else 0) + CloseFrames(list[1..])
  }

  lemma {:induction false} ClosesOfTwo(a: seq<Effect>, b: seq<Effect>)
    ensures Closes(a + b) == Closes(a) + Closes(b)
  {
    if a == [] {
      assert a + b == b;
    } else {
      assert (a + b)[1..] == a[1..] + b;
      ClosesOfTwo(a[1..], b);
    }
  }

  lemma {:induction false} ClosesOfList(list: seq<Sent>)
    ensures Closes(Effects(FramesOf(list))) == CloseFrames(list)
  {
    if list != [] {
      assert [list[0]] + list[1..] == list;
      FramesOfTwo([list[0]], list[1..]);
      EffectsOfTwo(FramesOf([list[0]]), FramesOf(list[1..]));
      OneFrame(list[0]);
      ClosesOfTwo(Effects(FramesOf([list[0]])), Effects(FramesOf(list[1..])));
      ClosesOfOne(list[0]);
      ClosesOfList(list[1..]);
    }
  }

  lemma ClosesOfOne(s: Sent)
    ensures Closes(Effects(FramesOf([s]))) == if s.first % 16 == 8 then 1 else 0
  {
    OneFrame(s);
  }

  // The terminal is closed exactly as often as a close frame was sent.
  lemma ClosesAreCounted(list: seq<Sent>, chunks: seq<Bytes>, tail: Bytes)
    requires AllSendable(list) && NextFrame(tail).None? && Concat(chunks) == EncodeAll(list) + tail
    ensures Closes(Effects(Stream([], chunks).frames)) == CloseFrames(list)
  {
    ConversationArrives(list, chunks, tail);
    ClosesOfList(list);
  }

  ghost predicate SoFar(all: Bytes, handled: seq<Frame>, told: seq<Effect>, buf: Bytes) {
    DecodeAll(all) == After(handled, DecodeAll(buf)) && told == Effects(handled)
  }

  lemma SoFarStep(all: Bytes, handled: seq<Frame>, told: seq<Effect>, buf: Bytes, p: Parsed)
    requires SoFar(all, handled, told, buf)
    requires NextFrame(buf) == Some(p)
    ensures p.size <= |buf|
    ensures SoFar(all, handled + [p.frame], told + EffectOf(p.frame), buf[p.size..])
  {
    AfterAfter(handled, [p.frame], DecodeAll(buf[p.size..]));
    EffectsOfTwo(handled, [p.frame]);
    assert Effects([p.frame]) == EffectOf(p.frame) + [];
  }

  lemma SoFarEnd(all: Bytes, handled: seq<Frame>, told: seq<Effect>, buf: Bytes)
    requires SoFar(all, handled, told, buf)
    requires NextFrame(buf).None?
    ensures DecodeAll(all).rest == buf && told == Effects(DecodeAll(all).frames)
  {
    assert handled + [] == handled;
  }

  method Unmask(data: array<Byte>, mask: Bytes)
    requires |mask| == 4
    modifies data
    ensures data[..] == ApplyMask(old(data[..]), mask)
  {
    var i := 0;
    while i < data.Length
      invariant 0 <= i <= data.Length
      invariant forall k :: 0 <= k < i ==> data[k] == XorByte(old(data[k]), mask[k % 4])
      invariant forall k :: i <= k < data.Length ==> data[k] == old(data[k])
    {
      data[i] := XorByte(data[i], mask[i % 4]);
      i := i + 1;
    }
  }

  method TakePayload(buf: Bytes, offset: nat, masked: bool, total: nat, ghost h: Header) returns (payload: Bytes)
    requires h.offset == offset && h.masked == masked && total == offset + KeySize(masked) + h.length <= |buf|
    ensures ReadPayload(buf, h) == Some(Parsed(Frame(h.opcode, payload), total))
  {
    var data := Slice(buf, offset + KeySize(masked), total);
    if masked {
      Unmask(data, buf[offset..offset + 4]);
    }
    payload := data[..];
  }

  // One turn of the decoding loop: nothing if the frame has not arrived completely.
  method TakeFrame(buf: Bytes) returns (p: Option<Parsed>)
    requires |buf| >= 2
    ensures p == NextFrame(buf)
  {
    var opcode := buf[0] % 16;
    var masked := buf[1] >= 128;
    var payloadLen: nat := buf[1] % 128;
    var offset := 2;
    if payloadLen == 126 {
      if |buf| < 4 { return None; }
      payloadLen := BigEndian(buf[2..4]);
      offset := 4;
    } else if payloadLen == 127 {
      if |buf| < 10 { return None; }
      payloadLen := BigEndian(buf[2..10]);
      offset := 10;
    }
    ghost var h := Header(opcode, masked, offset, payloadLen);
    assert ReadHeader(buf) == Some(h);
    var total := offset + KeySize(masked) + payloadLen;
    if |buf| < total { return None; }
    var payload := TakePayload(buf, offset, masked, total, h);
    p := Some(Parsed(Frame(opcode, payload), total));
  }

  class TerminalSocket {
    var buf: Bytes
    var told: seq<Effect>

    constructor ()
      ensures buf == [] && told == []
    {
      buf := [];
      told := [];
    }

    method OnData(chunk: Bytes)
      modifies this
      ensures buf == DecodeAll(old(buf) + chunk).rest
      ensures told == old(told) + Effects(DecodeAll(old(buf) + chunk).frames)
    {
      buf := buf + chunk;
      ghost var all := buf;
      ghost var handled: seq<Frame> := [];
      ghost var news: seq<Effect> := [];
      while |buf| >= 2
        invariant SoFar(all, handled, news, buf)
        invariant told == old(told) + news
        decreases |buf|
      {
        var taken := TakeFrame(buf);
        if taken.None? { break; }
        var frame := taken.value.frame;
        FrameSize(buf);
        SoFarStep(all, handled, news, buf, taken.value);
        Associates(old(told), news, EffectOf(frame));
        handled, news := handled + [frame], news + EffectOf(frame);
        if frame.opcode == 1 || frame.opcode == 2 {
          told := told + [Write(frame.payload)];
        } else if frame.opcode == 8 {
          told := told + [Close];
        }
        buf := buf[taken.value.size..];
      }
      SoFarEnd(all, handled, news, buf);
    }
  }

  method Slice(buf: Bytes, start: nat, end: nat) returns (data: array<Byte>)
    requires start <= end <= |buf|
    ensures fresh(data) && data[..] == buf[start..end]
  {
    data := new Byte[end - start](i requires 0 <= i < end - start => buf[start + i]);
  }

  // ----- the encoder

  method WriteBigEndian(header: array<Byte>, n: nat, start: nat, size: nat)
    requires start + size <= header.Length
    modifies header
    ensures header[start..start + size] == ToBigEndian(n, size)
    ensures header[..start] == old(header[..start]) && header[start + size..] == old(header[start + size..])
  {
    var k := size;
    var left := n;
    while k > 0
      invariant 0 <= k <= size
      invariant ToBigEndian(n, size) == ToBigEndian(left, k) + header[start + k..start + size]
      invariant header[..start] == old(header[..start]) && header[start + size..] == old(header[start + size..])
    {
      k := k - 1;
      header[start + k] := left % 256;
      left := left / 256;
    }
  }

  method OnPtyData(payload: Bytes) returns (frame: Bytes)
    ensures frame == Encode(payload)
  {
    var n := |payload|;
    var header := new Byte[if n < 126 then 2 else if n < 65536 then 4 else 10](_ => 0);
    header[0] := 0x82;
    if n < 126 {
      header[1] := n;
    } else if n < 65536 {
      header[1] := 126;
      WriteBigEndian(header, n, 2, 2);
    } else {
      header[1] := 127;
      WriteBigEndian(header, n, 2, 8);
    }
    frame := header[..] + payload;
  }
}
