/** WebSocket framing on both ends of the connection: api/ws_conn.go (the server side) and
    agent/nanobot_ws.go (the client side); sections 5.2 and 5.3 of RFC 6455.

    A byte is an integer below 256 and the bit operations of the code are written in arithmetic. The
    network is the sequence of bytes still to be read and the sequence of bytes written. */
module Frames {
  import opened Arithmetic

  type Byte = n: int | 0 <= n < 256

  const OP_CONTINUATION: Byte := 0x0
  const OP_TEXT: Byte := 0x1
  const OP_BINARY: Byte := 0x2
  const OP_CLOSE: Byte := 0x8
  const OP_PING: Byte := 0x9
  const OP_PONG: Byte := 0xA

  const MAX_FRAME_SIZE := 4194304

  datatype Error = Eof | NotMasked | TooLarge | Fragmented | Unsupported(opcode: Byte)

  // ---------------------------------------------------------------- bits

  /** 0x80 | b. */
  function SetTop(b: Byte): Byte { if b < 128 then b + 128 else b }

  function XorBits(a: nat, b: nat, bits: nat): nat {
    if bits == 0 then 0 else 2 * XorBits(a / 2, b / 2, bits - 1) + (a + b) % 2
  }

  lemma {:induction false} XorBound(a: nat, b: nat, bits: nat)
    ensures XorBits(a, b, bits) < Pow2(bits)
  {
    if bits > 0 { XorBound(a / 2, b / 2, bits - 1); }
  }

  lemma Parity(a: nat, b: nat, x: nat)
    ensures (2 * x + (a + b) % 2 + b) % 2 == a % 2 && (2 * x + (a + b) % 2) / 2 == x
  {
  }

  lemma XorStep(a: nat, b: nat, bits: nat)
    requires bits > 0
    ensures XorBits(a, b, bits) == 2 * XorBits(a / 2, b / 2, bits - 1) + (a + b) % 2
  {
  }

  lemma HalfBound(a: nat, bits: nat)
    requires bits > 0 && a < Pow2(bits)
    ensures a / 2 < Pow2(bits - 1)
  {
  }

  lemma {:induction false} XorTwice(a: nat, b: nat, bits: nat)
    requires a < Pow2(bits)
    ensures XorBits(XorBits(a, b, bits), b, bits) == a
  {
    if bits > 0 {
      HalfBound(a, bits);
      hide XorBits, Pow2;
      XorTwice(a / 2, b / 2, bits - 1);
      var x := XorBits(a / 2, b / 2, bits - 1);
      XorStep(a, b, bits);
      Parity(a, b, x);
      XorStep(2 * x + (a + b) % 2, b, bits);
    }
  }

  lemma Pow2Byte()
    ensures Pow2(8) == 256
  {
    assert Pow2(4) == 16;
  }

  /** a ^ b. */
  function Xor(a: Byte, b: Byte): Byte {
    Pow2Byte();
    XorBound(a, b, 8);
    XorBits(a, b, 8)
  }

  lemma XorInvolution(a: Byte, b: Byte)
    ensures Xor(Xor(a, b), b) == a
  {
    Pow2Byte();
    XorTwice(a, b, 8);
  }

  /** The binary digit of n at place k, the lowest being place 0. */
  function Bit(n: nat, k: nat): nat { if k == 0 then n % 2 else Bit(n / 2, k - 1) }

  lemma {:induction false} XorBitsAt(a: nat, b: nat, bits: nat, k: nat)
    requires k < bits
    ensures Bit(XorBits(a, b, bits), k) == if Bit(a, k) == Bit(b, k) then 0 else 1
  {
    XorStep(a, b, bits);
    BitStep(XorBits(a / 2, b / 2, bits - 1), (a + b) % 2, k);
    BitsOf(a, b, k);
    hide XorBits, Bit;
    if k > 0 { XorBitsAt(a / 2, b / 2, bits - 1, k - 1); }
  }

  lemma BitsOf(a: nat, b: nat, k: nat)
    ensures if k == 0 then (Bit(a, 0) == Bit(b, 0) <==> (a + b) % 2 == 0)
            else Bit(a, k) == Bit(a / 2, k - 1) && Bit(b, k) == Bit(b / 2, k - 1)
  {
  }

  lemma BitStep(x: nat, p: nat, k: nat)
    requires p < 2
    ensures Bit(2 * x + p, k) == if k == 0 then p else Bit(x, k - 1)
  {
    assert (2 * x + p) / 2 == x && (2 * x + p) % 2 == p;
  }

  /** a ^ b has a 1 exactly at the places where a and b differ. */
  lemma XorIs(a: Byte, b: Byte)
    ensures forall k :: 0 <= k < 8 ==> Bit(Xor(a, b), k) == if Bit(a, k) == Bit(b, k) then 0 else 1
  {
    hide XorBits, Bit;
    forall k | 0 <= k < 8 ensures Bit(Xor(a, b), k) == if Bit(a, k) == Bit(b, k) then 0 else 1 {
      XorBitsAt(a, b, 8, k);
    }
  }

  lemma {:induction false} SameBits(a: nat, b: nat, bits: nat)
    requires a < Pow2(bits) && b < Pow2(bits) && forall k :: 0 <= k < bits ==> Bit(a, k) == Bit(b, k)
    ensures a == b
  {
    if bits > 0 {
      HalfBound(a, bits);
      HalfBound(b, bits);
      forall k | 0 <= k < bits - 1 ensures Bit(a / 2, k) == Bit(b / 2, k) { assert Bit(a, k + 1) == Bit(b, k + 1); }
      SameBits(a / 2, b / 2, bits - 1);
      assert Bit(a, 0) == Bit(b, 0);
    }
  }

  /** The eight bits of a byte decide it. */
  lemma BitsDecide(a: Byte, b: Byte)
    requires forall k :: 0 <= k < 8 ==> Bit(a, k) == Bit(b, k)
    ensures a == b
  {
    Pow2Byte();
    SameBits(a, b, 8);
  }

  /** payload[i] ^= mask[i%4]. */
  function Masked(payload: seq<Byte>, mask: seq<Byte>): (r: seq<Byte>)
    requires |mask| == 4
    ensures |r| == |payload|
  {
    seq(|payload|, i requires 0 <= i < |payload| => Xor(payload[i], mask[i % 4]))
  }

  lemma MaskedTwice(payload: seq<Byte>, mask: seq<Byte>)
    requires |mask| == 4
    ensures Masked(Masked(payload, mask), mask) == payload
  {
    forall i | 0 <= i < |payload| ensures Masked(Masked(payload, mask), mask)[i] == payload[i] {
      XorInvolution(payload[i], mask[i % 4]);
    }
  }

  // ---------------------------------------------------------------- big-endian integers

  function Pow256(k: nat): nat { if k == 0 then 1 else 256 * Pow256(k - 1) }

  function BigEndian(n: nat, k: nat): (r: seq<Byte>)
    ensures |r| == k
  {
    if k == 0 then [] else BigEndian(n / 256, k - 1) + [n % 256]
  }

  function FromBigEndian(s: seq<Byte>): nat {
    if s == [] then 0 else 256 * FromBigEndian(s[..|s| - 1]) + s[|s| - 1]
  }

  lemma {:induction false} BigEndianRoundTrip(n: nat, k: nat)
    requires n < Pow256(k)
    ensures FromBigEndian(BigEndian(n, k)) == n
  {
    if k > 0 {
      BigEndianRoundTrip(n / 256, k - 1);
      assert BigEndian(n, k)[..k - 1] == BigEndian(n / 256, k - 1);
    }
  }

  const TWO_63 := 0x8000_0000_0000_0000

  /** int64(u) for a uint64. */
  function Int64(u: nat): int { if u >= TWO_63 then u - 2 * TWO_63 else u }

  // ---------------------------------------------------------------- writing

  /** The first two bytes and the extended length; `bit` is the mask bit of the second byte. */
  function Header(opcode: Byte, masked: bool, len: nat): seq<Byte> {
    var bit := if masked then 128 else 0;
    if len < 126 then [SetTop(opcode), bit + len]
    else if len <= 65535 then [SetTop(opcode), bit + 126] + BigEndian(len, 2)
    else [SetTop(opcode), bit + 127] + BigEndian(len, 8)
  }

  /** What writeClientFrame puts on the wire. */
  function ClientFrame(opcode: Byte, mask: seq<Byte>, payload: seq<Byte>): seq<Byte>
    requires |mask| == 4
  {
    Header(opcode, true, |payload|) + mask + Masked(payload, mask)
  }

  /** What wsConn.writeFrame puts on the wire. */
  function ServerFrame(opcode: Byte, payload: seq<Byte>): seq<Byte> {
    Header(opcode, false, |payload|) + payload
  }

  // ---------------------------------------------------------------- reading

  /** io.ReadFull of n bytes; at the end of the stream it consumes what is left and fails. */
  datatype Read<T> = Got(value: T, rest: seq<Byte>) | Failed(error: Error, rest: seq<Byte>)

  function ReadFull(input: seq<Byte>, n: nat): Read<seq<Byte>> {
    if n <= |input| then Got(input[..n], input[n..]) else Failed(Eof, [])
  }

  datatype Head = Head(fin: bool, opcode: Byte, masked: bool, len: int)

  function ReadLength(h: Head, input: seq<Byte>): Read<Head> {
    if h.len == 126 then
      var ext := ReadFull(input, 2);
      if ext.Failed? then Failed(ext.error, ext.rest) else Got(h.(len := FromBigEndian(ext.value)), ext.rest)
    else if h.len == 127 then
      var ext := ReadFull(input, 8);
      if ext.Failed? then Failed(ext.error, ext.rest) else Got(h.(len := Int64(FromBigEndian(ext.value))), ext.rest)
    else
      Got(h, input)
  }

  function ReadHead(input: seq<Byte>): Read<Head> {
    var two := ReadFull(input, 2);
    if two.Failed? then Failed(two.error, two.rest)
    else ReadLength(Head(two.value[0] >= 128, two.value[0] % 16, two.value[1] >= 128, two.value[1] % 128), two.rest)
  }

  datatype Frame = Frame(opcode: Byte, payload: seq<Byte>)

  function ReadMaskedPayload(input: seq<Byte>, len: nat): Read<seq<Byte>> {
    var mask := ReadFull(input, 4);
    if mask.Failed? then Failed(mask.error, mask.rest)
    else
      var payload := ReadFull(mask.rest, len);
      if payload.Failed? then Failed(payload.error, payload.rest)
          else Got(Masked(payload.value, mask.value), payload.rest)
  }

  /** wsConn.readFrame. */
  function ServerRead(input: seq<Byte>): Read<Frame> {
    var head := ReadHead(input);
    if head.Failed? then Failed(head.error, head.rest)
    else
      var h := head.value;
      if !h.masked then Failed(NotMasked, head.rest)
      else if h.len < 0 || h.len > MAX_FRAME_SIZE then Failed(TooLarge, head.rest)
      else
        var body := ReadMaskedPayload(head.rest, h.len);
        if body.Failed? then Failed(body.error, body.rest)
        else if !h.fin && (h.opcode == OP_TEXT || h.opcode == OP_BINARY || h.opcode == OP_CONTINUATION)
            then Failed(Fragmented, body.rest)
        else Got(Frame(h.opcode, body.value), body.rest)
  }

  /** nanobotWSClient.readServerFrame. */
  function ClientRead(input: seq<Byte>): Read<Frame> {
    var head := ReadHead(input);
    if head.Failed? then Failed(head.error, head.rest)
    else
      var h := head.value;
      if h.len < 0 || h.len > MAX_FRAME_SIZE then Failed(TooLarge, head.rest)
      else
        var body := if h.masked then ReadMaskedPayload(head.rest, h.len) else ReadFull(head.rest, h.len);
        if body.Failed? then Failed(body.error, body.rest) else Got(Frame(h.opcode, body.value), body.rest)
  }

  // ---------------------------------------------------------------- round trips

  lemma ReadFullAppend(a: seq<Byte>, b: seq<Byte>)
    ensures ReadFull(a + b, |a|) == Got(a, b)
  {
    assert (a + b)[..|a|] == a && (a + b)[|a|..] == b;
  }

  lemma Pow256Values()
    ensures Pow256(2) == 65536 && Pow256(8) == 2 * TWO_63
  {
    assert Pow256(4) == 0x1_0000_0000;
  }

  /** The first two bytes are read back; the seven low bits of the second say which length encoding follows. */
  lemma HeadBytes(opcode: Byte, masked: bool, code: nat, ext: seq<Byte>)
    requires code < 128
    ensures var second: Byte := (if masked then 128 else 0) + code;
            ReadHead([SetTop(opcode), second] + ext) == ReadLength(Head(true, opcode % 16, masked, code), ext)
  {
    var second: Byte := (if masked then 128 else 0) + code;
    ReadFullAppend([SetTop(opcode), second], ext);
    hide ReadLength;
  }

  /** An extended length of k bytes. */
  lemma LengthBytes(h: Head, len: nat, k: nat, rest: seq<Byte>)
    requires len < Pow256(k) && len < TWO_63 && ((h.len == 126 && k == 2) || (h.len == 127 && k == 8))
    ensures ReadLength(h, BigEndian(len, k) + rest) == Got(h.(len := len), rest)
  {
    BigEndianRoundTrip(len, k);
    ReadFullAppend(BigEndian(len, k), rest);
    hide BigEndian, FromBigEndian, Pow256, ReadFull;
  }

  lemma BytesAssoc(a: seq<Byte>, b: seq<Byte>, c: seq<Byte>)
    ensures a + b + c == a + (b + c)
  {
  }

  /** Whatever length encoding is chosen, the header is read back whole, up to the four bits of the opcode. */
  lemma HeaderRoundTrip(opcode: Byte, masked: bool, len: nat, rest: seq<Byte>)
    requires len < TWO_63
    ensures ReadHead(Header(opcode, masked, len) + rest) == Got(Head(true, opcode % 16, masked, len), rest)
  {
    Pow256Values();
    var bit := if masked then 128 else 0;
    hide ReadHead, BigEndian, Pow256, SetTop;
    if len < 126 {
      HeadBytes(opcode, masked, len, rest);
    } else {
      var code, k := if len <= 65535 then 126 else 127, if len <= 65535 then 2 else 8;
      BytesAssoc([SetTop(opcode), bit + code], BigEndian(len, k), rest);
      HeadBytes(opcode, masked, code, BigEndian(len, k) + rest);
      hide ReadLength;
      LengthBytes(Head(true, opcode % 16, masked, code), len, k, rest);
    }
  }

  /** Client to server: exactly the payloads of at most 4 MiB arrive, unmasked, and the suffix is untouched. */
  lemma ClientToServer(opcode: Byte, mask: seq<Byte>, payload: seq<Byte>, suffix: seq<Byte>)
    requires |mask| == 4 && |payload| < TWO_63
    ensures var r := ServerRead(ClientFrame(opcode, mask, payload) + suffix);
            if |payload| <= 4194304 then r == Got(Frame(opcode % 16, payload), suffix)
            else r.Failed? && r.error == TooLarge
  {
    var m := Masked(payload, mask);
    var body := mask + m + suffix;
    assert ClientFrame(opcode, mask, payload) + suffix == Header(opcode, true, |payload|) + body;
    HeaderRoundTrip(opcode, true, |payload|, body);
    hide ReadHead, Header, Masked;
    assert body == mask + (m + suffix);
    ReadFullAppend(mask, m + suffix);
    ReadFullAppend(m, suffix);
    MaskedTwice(payload, mask);
  }

  /** Server to client: every payload the server agrees to write arrives. */
  lemma ServerToClient(opcode: Byte, payload: seq<Byte>, suffix: seq<Byte>)
    requires |payload| < TWO_63
    ensures var r := ClientRead(ServerFrame(opcode, payload) + suffix);
            if |payload| <= 4194304 then r == Got(Frame(opcode % 16, payload), suffix)
            else r.Failed? && r.error == TooLarge
  {
    var body := payload + suffix;
    assert ServerFrame(opcode, payload) + suffix == Header(opcode, false, |payload|) + body;
    HeaderRoundTrip(opcode, false, |payload|, body);
    hide ReadHead, Header, Masked;
    ReadFullAppend(payload, suffix);
  }

  /** The opcode survives exactly when it fits in four bits. */
  lemma OpcodeSurvives(opcode: Byte, mask: seq<Byte>, payload: seq<Byte>, suffix: seq<Byte>)
    requires |mask| == 4 && |payload| <= 4194304
    ensures ServerRead(ClientFrame(opcode, mask, payload) + suffix) == Got(Frame(opcode, payload), suffix)
            <==> opcode < 16
    ensures ClientRead(ServerFrame(opcode, payload) + suffix) == Got(Frame(opcode, payload), suffix) <==> opcode < 16
  {
    hide *;
    SmallFrame(|payload|);
    ClientToServer(opcode, mask, payload, suffix);
    ServerToClient(opcode, payload, suffix);
  }

  lemma SmallFrame(len: nat)
    requires len <= 4194304
    ensures len < TWO_63
  {
  }

  /** The server refuses what its own side wrote: an unmasked frame never passes for a client's. */
  lemma ServerRefusesServerFrames(opcode: Byte, payload: seq<Byte>, suffix: seq<Byte>)
    requires |payload| < TWO_63
    ensures var r := ServerRead(ServerFrame(opcode, payload) + suffix); r.Failed? && r.error == NotMasked
  {
    var body := payload + suffix;
    assert ServerFrame(opcode, payload) + suffix == Header(opcode, false, |payload|) + body;
    HeaderRoundTrip(opcode, false, |payload|, body);
  }

  /** A frame cut short is an end of stream, never another frame. */
  lemma TruncatedIsEof(opcode: Byte, mask: seq<Byte>, payload: seq<Byte>, n: nat)
    requires |mask| == 4 && |payload| <= 4194304 && n < |ClientFrame(opcode, mask, payload)|
    ensures ServerRead(ClientFrame(opcode, mask, payload)[..n]) == Failed(Eof, [])
  {
    var h, m := Header(opcode, true, |payload|), Masked(payload, mask);
    var cut := ClientFrame(opcode, mask, payload)[..n];
    if n < |h| {
      assert cut == h[..n];
      TruncatedHeader(opcode, true, |payload|, n);
    } else {
      var body := (mask + m)[..n - |h|];
      assert cut == h + body;
      HeaderRoundTrip(opcode, true, |payload|, body);
      hide ReadHead, Header, Masked;
      if |body| >= 4 { assert body[4..] == m[..|body| - 4]; }
    }
  }

  lemma TruncatedHeader(opcode: Byte, masked: bool, len: nat, n: nat)
    requires len <= MAX_FRAME_SIZE && n < |Header(opcode, masked, len)|
    ensures ReadHead(Header(opcode, masked, len)[..n]) == Failed(Eof, [])
  {
    var cut := Header(opcode, masked, len)[..n];
    if n >= 2 {
      assert cut[..2] == Header(opcode, masked, len)[..2];
      assert |cut[2..]| == n - 2;
    }
  }

  // ---------------------------------------------------------------- the bytes on the wire

  /** n without its last bytes. */
  function Shifted(n: nat, bytes: nat): nat { if bytes == 0 then n else Shifted(n / 256, bytes - 1) }

  /** The bytes of a header, most significant byte of a length first (section 5.2 of RFC 6455). */
  predicate HeaderBytes(w: seq<Byte>, first: int, bit: int, len: nat) {
    && |w| >= 2 && w[0] == first
    && (if len < 126 then |w| == 2 && w[1] == bit + len
        else if len <= 65535 then |w| == 4 && w[1] == bit + 126 && w[2] == len / 256 && w[3] == len % 256
        else
          |w| == 10 && w[1] == bit + 127 && forall j :: 2 <= j < 10 ==> w[j] == Shifted(len, 9 - j) % 256)
  }

  /** 2, 4 or 10 bytes. */
  function HeaderSize(len: nat): nat { if len < 126 then 2 else if len <= 65535 then 4 else 10 }

  lemma HeaderIs(opcode: Byte, masked: bool, len: nat)
    ensures HeaderBytes(Header(opcode, masked, len), if opcode < 128 then opcode + 128 else opcode,
                if masked then 128 else 0, len)
  {
    if len <= 65535 {
      BigEndianAt(len, 2, 0);
      BigEndianAt(len, 2, 1);
    } else {
      hide BigEndian;
      forall j | 0 <= j < 8 ensures BigEndian(len, 8)[j] == Shifted(len, 7 - j) % 256 { BigEndianAt(len, 8, j); }
    }
  }

  /** Byte j of k is the one above k - 1 - j others. */
  lemma {:induction false} BigEndianAt(n: nat, k: nat, j: nat)
    requires j < k
    ensures BigEndian(n, k)[j] == Shifted(n, k - 1 - j) % 256
  {
    if j < k - 1 {
      BigEndianAt(n / 256, k - 1, j);
      assert BigEndian(n, k)[j] == BigEndian(n / 256, k - 1)[j];
    }
  }

  /** w is, byte by byte and bit by bit, the masked frame (sections 5.2 and 5.3 of RFC 6455). */
  ghost predicate OnWire(w: seq<Byte>, opcode: Byte, mask: seq<Byte>, payload: seq<Byte>)
    requires |mask| == 4
  {
    var size := HeaderSize(|payload|);
    && |w| == size + 4 + |payload|
    && HeaderBytes(w[..size], if opcode < 128 then opcode + 128 else opcode, 128, |payload|)
    && (forall j :: 0 <= j < 4 ==> w[size + j] == mask[j])
    && forall i, k :: 0 <= i < |payload| && 0 <= k < 8 ==>
         Bit(w[size + 4 + i], k) == if Bit(payload[i], k) == Bit(mask[i % 4], k) then 0 else 1
  }

  lemma FrameOnWire(opcode: Byte, mask: seq<Byte>, payload: seq<Byte>)
    requires |mask| == 4
    ensures OnWire(ClientFrame(opcode, mask, payload), opcode, mask, payload)
  {
    var size, h, m := HeaderSize(|payload|), Header(opcode, true, |payload|), Masked(payload, mask);
    HeaderIs(opcode, true, |payload|);
    assert |h| == size;
    hide Header, Xor, Bit, HeaderBytes;
    forall i | 0 <= i < |payload|
      ensures forall k :: 0 <= k < 8 ==>
                Bit(m[i], k) == if Bit(payload[i], k) == Bit(mask[i % 4], k) then 0 else 1
    {
      XorIs(payload[i], mask[i % 4]);
    }
    var f := ClientFrame(opcode, mask, payload);
    assert f[..size] == h && forall j :: 0 <= j < 4 ==> f[size + j] == mask[j];
    assert forall i :: 0 <= i < |payload| ==> f[size + 4 + i] == m[i];
  }

  lemma OnWireOnce(v: seq<Byte>, w: seq<Byte>, opcode: Byte, mask: seq<Byte>, payload: seq<Byte>)
    requires |mask| == 4 && OnWire(v, opcode, mask, payload) && OnWire(w, opcode, mask, payload)
    ensures v == w
  {
    var size := HeaderSize(|payload|);
    SameHeader(v[..size], w[..size], if opcode < 128 then opcode + 128 else opcode, 128, |payload|);
    hide HeaderBytes, HeaderSize, Bit;
    var a, b := v[size + 4..], w[size + 4..];
    forall i | 0 <= i < |a| ensures a[i] == b[i] {
      forall k | 0 <= k < 8 ensures Bit(a[i], k) == Bit(b[i], k) {
        assert Bit(v[size + 4 + i], k) == if Bit(payload[i], k) == Bit(mask[i % 4], k) then 0 else 1;
      }
      BitsDecide(a[i], b[i]);
    }
    assert v[size..size + 4] == mask && w[size..size + 4] == mask;
    assert v == v[..size] + v[size..size + 4] + a && w == w[..size] + w[size..size + 4] + b;
  }

  /** Exactly these bytes are what writeClientFrame puts on the wire. */
  lemma ClientFrameIs(w: seq<Byte>, opcode: Byte, mask: seq<Byte>, payload: seq<Byte>)
    requires |mask| == 4
    ensures w == ClientFrame(opcode, mask, payload) <==> OnWire(w, opcode, mask, payload)
  {
    hide *;
    FrameOnWire(opcode, mask, payload);
    if OnWire(w, opcode, mask, payload) { OnWireOnce(w, ClientFrame(opcode, mask, payload), opcode, mask, payload); }
  }

  lemma SameHeader(a: seq<Byte>, b: seq<Byte>, first: int, bit: int, len: nat)
    requires HeaderBytes(a, first, bit, len) && HeaderBytes(b, first, bit, len)
    ensures a == b
  {
    forall j | 0 <= j < |a| ensures a[j] == b[j] { }
  }

  /** The server reads the payload out of exactly such bytes, whoever sent them, and leaves what follows. */
  lemma WireIsRead(w: seq<Byte>, opcode: Byte, mask: seq<Byte>, payload: seq<Byte>, suffix: seq<Byte>)
    requires |mask| == 4 && opcode < 16 && |payload| <= 4194304 && OnWire(w, opcode, mask, payload)
    ensures ServerRead(w + suffix) == Got(Frame(opcode, payload), suffix)
  {
    ClientFrameIs(w, opcode, mask, payload);
    hide *;
    SmallFrame(|payload|);
    ClientToServer(opcode, mask, payload, suffix);
  }

  /** What writeFrame puts on the wire: the header without the mask bit, and the payload as it is. */
  lemma ServerFrameIs(opcode: Byte, payload: seq<Byte>)
    ensures var w, size := ServerFrame(opcode, payload), HeaderSize(|payload|);
            && |w| == size + |payload| && w[size..] == payload
            && HeaderBytes(w[..size], if opcode < 128 then opcode + 128 else opcode, 0, |payload|)
  {
    var h := Header(opcode, false, |payload|);
    HeaderIs(opcode, false, |payload|);
    hide Header;
    assert ServerFrame(opcode, payload)[..|h|] == h;
  }

  /** A frame without the final bit is refused when it carries data: text, binary or a continuation. Other frames are
      read whether the bit is set or not. */
  lemma FragmentIsRefused(opcode: Byte, mask: seq<Byte>, payload: seq<Byte>, suffix: seq<Byte>)
    requires |mask| == 4 && opcode < 16 && |payload| <= 4194304
    ensures var f := ClientFrame(opcode, mask, payload);
            f != [] && ServerRead([f[0] - 128] + f[1..] + suffix) ==
              if opcode <= 2 then Failed(Fragmented, suffix) else Got(Frame(opcode, payload), suffix)
  {
    var h := Header(opcode, true, |payload|);
    var body := mask + Masked(payload, mask) + suffix;
    WithoutFin(opcode, mask, payload, suffix);
    HeadWithoutFin(opcode, |payload|, body);
    hide *;
    BodyIsRead(mask, payload, suffix);
    ReadBehind([opcode] + h[1..] + body, opcode, |payload|, body);
  }

  lemma WithoutFin(opcode: Byte, mask: seq<Byte>, payload: seq<Byte>, suffix: seq<Byte>)
    requires |mask| == 4 && opcode < 16
    ensures var f, h := ClientFrame(opcode, mask, payload), Header(opcode, true, |payload|);
            f != [] && h != [] && f[0] == opcode + 128
            && [f[0] - 128] + f[1..] + suffix == [opcode] + h[1..] + (mask + Masked(payload, mask) + suffix)
  {
    var h, m := Header(opcode, true, |payload|), Masked(payload, mask);
    assert h != [] && h[0] == opcode + 128;
    hide Header, Masked;
    var f := ClientFrame(opcode, mask, payload);
    assert f == h + mask + m && f[1..] == h[1..] + mask + m;
    assert h[1..] + mask + m + suffix == h[1..] + (mask + m + suffix);
  }

  /** What readFrame does behind a header without the final bit. */
  lemma ReadBehind(input: seq<Byte>, opcode: Byte, len: nat, body: seq<Byte>)
    requires ReadHead(input) == Got(Head(false, opcode, true, len), body) && len <= MAX_FRAME_SIZE
    requires ReadMaskedPayload(body, len).Got?
    ensures var r := ReadMaskedPayload(body, len);
            ServerRead(input) == if opcode <= 2 then Failed(Fragmented, r.rest) else Got(Frame(opcode, r.value), r.rest)
  {
    hide ReadHead, ReadMaskedPayload;
  }

  lemma BodyIsRead(mask: seq<Byte>, payload: seq<Byte>, suffix: seq<Byte>)
    requires |mask| == 4
    ensures ReadMaskedPayload(mask + Masked(payload, mask) + suffix, |payload|) == Got(payload, suffix)
  {
    var m := Masked(payload, mask);
    hide Masked;
    assert mask + m + suffix == mask + (m + suffix);
    ReadFullAppend(mask, m + suffix);
    ReadFullAppend(m, suffix);
    MaskedTwice(payload, mask);
  }

  lemma HeadWithoutFin(opcode: Byte, len: nat, rest: seq<Byte>)
    requires opcode < 16 && len <= MAX_FRAME_SIZE
    ensures ReadHead([opcode] + Header(opcode, true, len)[1..] + rest) == Got(Head(false, opcode, true, len), rest)
  {
    Pow256Values();
    hide BigEndian, Pow256;
    var h := Header(opcode, true, len);
    var code := if len < 126 then len else if len <= 65535 then 126 else 127;
    var ext := if len < 126 then [] else if len <= 65535 then BigEndian(len, 2) else BigEndian(len, 8);
    assert [opcode] + h[1..] + rest == [opcode, 128 + code] + (ext + rest);
    ReadFullAppend([opcode, 128 + code], ext + rest);
    hide ReadLength, Header;
    if len < 126 {
      assert ext + rest == rest;
      NoExtension(Head(false, opcode, true, code), rest);
    } else {
      LengthBytes(Head(false, opcode, true, code), len, if len <= 65535 then 2 else 8, rest);
    }
  }

  lemma NoExtension(h: Head, rest: seq<Byte>)
    requires h.len < 126
    ensures ReadLength(h, rest) == Got(h, rest)
  {
  }

  /** A length whose highest bit is set is negative to the program, and refused. */
  lemma HugeIsRefused(first: Byte, len: nat, rest: seq<Byte>)
    requires 0x8000_0000_0000_0000 <= len < 0x1_0000_0000_0000_0000
    ensures var r := ServerRead([first, 255] + BigEndian(len, 8) + rest); r.Failed? && r.error == TooLarge
    ensures var r := ClientRead([first, 127] + BigEndian(len, 8) + rest); r.Failed? && r.error == TooLarge
  {
    Pow256Values();
    BigEndianRoundTrip(len, 8);
    var ext := BigEndian(len, 8);
    assert [first, 255] + ext + rest == [first, 255] + (ext + rest);
    assert [first, 127] + ext + rest == [first, 127] + (ext + rest);
    ReadFullAppend([first, 255], ext + rest);
    ReadFullAppend([first, 127], ext + rest);
    ReadFullAppend(ext, rest);
    hide BigEndian, FromBigEndian, ReadFull, ReadMaskedPayload;
  }

  /** The client also reads masked frames, unmasking them. */
  lemma ClientReadsMasked(opcode: Byte, mask: seq<Byte>, payload: seq<Byte>, suffix: seq<Byte>)
    requires |mask| == 4 && opcode < 16 && |payload| <= 4194304
    ensures ClientRead(ClientFrame(opcode, mask, payload) + suffix) == Got(Frame(opcode, payload), suffix)
  {
    var body := mask + Masked(payload, mask) + suffix;
    assert ClientFrame(opcode, mask, payload) + suffix == Header(opcode, true, |payload|) + body;
    HeaderRoundTrip(opcode, true, |payload|, body);
    BodyIsRead(mask, payload, suffix);
    hide ReadHead, Header, Masked, ReadMaskedPayload;
  }

  // ---------------------------------------------------------------- ReadText over a whole stream

  datatype TextResult = Text(payload: seq<Byte>, rest: seq<Byte>, written: seq<Byte>)
                      | Ended(error: Error, rest: seq<Byte>, written: seq<Byte>)

  function Wrote(prefix: seq<Byte>, r: TextResult): TextResult { r.(written := prefix + r.written) }

  /** A frame with an opcode other than these six ends the reading, whatever follows. */
  lemma OthersAreUnsupported(opcode: Byte, mask: seq<Byte>, payload: seq<Byte>, suffix: seq<Byte>)
    requires |mask| == 4 && opcode < 16 && |payload| <= 4194304 && opcode !in {0, 1, 2, 8, 9, 10}
    ensures ReadText(ClientFrame(opcode, mask, payload) + suffix) == Ended(Unsupported(opcode), suffix, [])
  {
    OtherOpcode(opcode);
    hide *;
    SmallFrame(|payload|);
    ClientToServer(opcode, mask, payload, suffix);
    ReadTextIs(ClientFrame(opcode, mask, payload) + suffix);
  }

  lemma OtherOpcode(opcode: Byte)
    requires opcode < 16 && opcode !in {0, 1, 2, 8, 9, 10}
    ensures opcode !in {OP_TEXT, OP_BINARY, OP_CONTINUATION, OP_PING, OP_PONG, OP_CLOSE} && opcode % 16 == opcode
  {
  }

  lemma ReadShrinks(input: seq<Byte>)
    ensures ServerRead(input).Got? ==> |ServerRead(input).rest| < |input|
  {
  }

  /** ReadText: skips binary, continuation and pong frames, answers pings and a close, returns the first text. */
  function ReadText(input: seq<Byte>): TextResult
    decreases |input|
  {
    ReadShrinks(input);
    var r := ServerRead(input);
    if r.Failed? then Ended(r.error, r.rest, [])
    else
      var f := r.value;
      if f.opcode == OP_TEXT then Text(f.payload, r.rest, [])
      else if f.opcode == OP_BINARY || f.opcode == OP_CONTINUATION || f.opcode == OP_PONG then ReadText(r.rest)
      else if f.opcode == OP_PING then
        if |f.payload| > MAX_FRAME_SIZE then Ended(TooLarge, r.rest, [])
        else Wrote(ServerFrame(OP_PONG, f.payload), ReadText(r.rest))
      else if f.opcode == OP_CLOSE then Ended(Eof, r.rest, ServerFrame(OP_CLOSE, []))
      else Ended(Unsupported(f.opcode), r.rest, [])
  }

  lemma {:induction false} ReadTextShrinks(input: seq<Byte>)
    ensures ReadText(input).Text? ==> |ReadText(input).rest| < |input|
    decreases |input|
  {
    ReadShrinks(input);
    var r := ServerRead(input);
    hide ServerRead;
    if r.Got? { ReadTextShrinks(r.rest); }
  }

  datatype Session = Session(texts: seq<seq<Byte>>, written: seq<Byte>, error: Error)

  /** The connection's read loop: ReadText until it fails. */
  function ReadAll(input: seq<Byte>): Session
    decreases |input|
  {
    ReadTextShrinks(input);
    match ReadText(input)
    case Ended(e, _, w) => Session([], w, e)
    case Text(payload, rest, w) =>
      var s := ReadAll(rest);
      Session([payload] + s.texts, w + s.written, s.error)
  }

  datatype Sent = Sent(opcode: Byte, mask: seq<Byte>, payload: seq<Byte>)

  /** Opcodes by their numbers (section 5.2 of RFC 6455): 0 continuation, 1 text, 2 binary, 8 close, 9 ping, 10 pong. */
  predicate Supported(f: Sent) {
    && (f.opcode <= 2 || 8 <= f.opcode <= 10) && |f.mask| == 4 && |f.payload| <= 4194304
  }

  function Wire(frames: seq<Sent>): seq<Byte>
    requires forall i :: 0 <= i < |frames| ==> Supported(frames[i])
  {
    if frames == [] then []
    else
      var f := frames[0];
      assert Supported(f);
      ClientFrame(f.opcode, f.mask, f.payload) + Wire(frames[1..])
  }

  /** The frames before the first close. */
  function BeforeClose(frames: seq<Sent>): seq<Sent> {
    if frames == [] || frames[0].opcode == 8 then [] else [frames[0]] + BeforeClose(frames[1..])
  }

  function TextsOf(frames: seq<Sent>): seq<seq<Byte>> {
    if frames == [] then []
    else (if frames[0].opcode == 1 then [frames[0].payload] else []) + TextsOf(frames[1..])
  }

  function PongsOf(frames: seq<Sent>): seq<Byte> {
    if frames == [] then []
    else (if frames[0].opcode == 9 then ServerFrame(10, frames[0].payload) else []) + PongsOf(frames[1..])
  }

  function CloseReply(frames: seq<Sent>): seq<Byte> {
    if exists f :: f in frames && f.opcode == 8 then ServerFrame(8, []) else []
  }

  /** What one frame adds to what the rest of the stream yields. */
  function Answer(f: Sent, s: Session): Session {
    if f.opcode == OP_TEXT then s.(texts := [f.payload] + s.texts)
    else if f.opcode == OP_PING then s.(written := ServerFrame(OP_PONG, f.payload) + s.written)
    else s
  }

  lemma ReadTextStep(f: Sent, rest: seq<Byte>)
    requires Supported(f)
    ensures ReadText(ClientFrame(f.opcode, f.mask, f.payload) + rest) ==
            if f.opcode == OP_TEXT then Text(f.payload, rest, [])
            else if f.opcode == OP_PING then Wrote(ServerFrame(OP_PONG, f.payload), ReadText(rest))
            else if f.opcode == OP_CLOSE then Ended(Eof, rest, ServerFrame(OP_CLOSE, []))
            else ReadText(rest)
  {
    hide ServerRead, ClientFrame, ServerFrame, ReadText, Wrote, Supported;
    SupportedIs(f);
    SmallFrame(|f.payload|);
    ClientToServer(f.opcode, f.mask, f.payload, rest);
    ReadTextIs(ClientFrame(f.opcode, f.mask, f.payload) + rest);
  }

  lemma SupportedIs(f: Sent)
    requires Supported(f)
    ensures |f.mask| == 4 && |f.payload| <= MAX_FRAME_SIZE && f.opcode % 16 == f.opcode
    ensures f.opcode in {OP_TEXT, OP_BINARY, OP_CONTINUATION, OP_PING, OP_PONG, OP_CLOSE}
  {
  }

  lemma ReadTextIs(input: seq<Byte>)
    ensures var r := ServerRead(input);
            if r.Failed? then ReadText(input) == Ended(r.error, r.rest, [])
            else if r.value.opcode == OP_TEXT then ReadText(input) == Text(r.value.payload, r.rest, [])
            else if r.value.opcode == OP_BINARY || r.value.opcode == OP_CONTINUATION || r.value.opcode == OP_PONG then
              ReadText(input) == ReadText(r.rest)
            else if r.value.opcode == OP_PING then
              ReadText(input) == if |r.value.payload| > MAX_FRAME_SIZE then Ended(TooLarge, r.rest, [])
                                 else Wrote(ServerFrame(OP_PONG, r.value.payload), ReadText(r.rest))
            else if r.value.opcode == OP_CLOSE then ReadText(input) == Ended(Eof, r.rest, ServerFrame(OP_CLOSE, []))
            else ReadText(input) == Ended(Unsupported(r.value.opcode), r.rest, [])
  {
    hide ServerRead, ServerFrame, Wrote;
  }

  lemma ReadAllStep(input: seq<Byte>)
    ensures var r := ReadText(input);
            if r.Ended? then ReadAll(input) == Session([], r.written, r.error)
            else var s := ReadAll(r.rest);
                ReadAll(input) == Session([r.payload] + s.texts, r.written + s.written, s.error)
  {
    hide ReadText;
  }

  lemma PeelFrame(f: Sent, rest: seq<Byte>)
    requires Supported(f) && f.opcode != OP_CLOSE
    ensures ReadAll(ClientFrame(f.opcode, f.mask, f.payload) + rest) == Answer(f, ReadAll(rest))
  {
    ReadTextStep(f, rest);
    ReadAllStep(ClientFrame(f.opcode, f.mask, f.payload) + rest);
    ReadAllStep(rest);
    hide ReadText, ClientFrame, ServerFrame, ReadAll, Supported;
    if f.opcode == OP_TEXT {
      assert [] + ReadAll(rest).written == ReadAll(rest).written;
    } else if f.opcode == OP_PING {
      var pong, r := ServerFrame(OP_PONG, f.payload), ReadText(rest);
      if r.Text? { ConcatAssoc(pong, r.written, ReadAll(r.rest).written); }
    }
  }

  lemma ConcatAssoc(a: seq<Byte>, b: seq<Byte>, c: seq<Byte>)
    ensures a + (b + c) == a + b + c
  {
  }

  lemma PeelClose(f: Sent, rest: seq<Byte>)
    requires Supported(f) && f.opcode == OP_CLOSE
    ensures ReadAll(ClientFrame(f.opcode, f.mask, f.payload) + rest) == Session([], ServerFrame(OP_CLOSE, []), Eof)
  {
    ReadTextStep(f, rest);
    ReadAllStep(ClientFrame(f.opcode, f.mask, f.payload) + rest);
  }

  /** What a stream is expected to yield, in terms of the frames that were sent. */
  function Expected(frames: seq<Sent>): Session {
    var before := BeforeClose(frames);
    Session(TextsOf(before), PongsOf(before) + CloseReply(frames), Eof)
  }

  lemma ExpectedStep(f: Sent, rest: seq<Sent>)
    ensures Expected([f] + rest) ==
            if f.opcode == OP_CLOSE then Session([], ServerFrame(OP_CLOSE, []), Eof) else Answer(f, Expected(rest))
  {
    hide ServerFrame;
    var frames, before := [f] + rest, BeforeClose(rest);
    assert frames[1..] == rest;
    if f.opcode == OP_CLOSE {
      assert f in frames;
      assert PongsOf([]) + ServerFrame(OP_CLOSE, []) == ServerFrame(OP_CLOSE, []);
    } else {
      assert ([f] + before)[1..] == before;
      assert CloseReply(frames) == CloseReply(rest);
      if f.opcode == OP_PING { ConcatAssoc(ServerFrame(OP_PONG, f.payload), PongsOf(before), CloseReply(rest)); }
      else { assert [] + PongsOf(before) == PongsOf(before); }
      if f.opcode != OP_TEXT { assert [] + TextsOf(before) == TextsOf(before); }
    }
  }

  lemma {:induction false} SupportedIsRead(frames: seq<Sent>)
    requires forall i :: 0 <= i < |frames| ==> Supported(frames[i])
    ensures ReadAll(Wire(frames)) == Expected(frames)
  {
    hide ClientFrame, ServerFrame, ReadAll, Expected, Supported;
    if frames == [] {
      EmptyStream();
    } else {
      var f, rest := frames[0], frames[1..];
      assert frames == [f] + rest;
      SupportedIsRead(rest);
      ExpectedStep(f, rest);
      if f.opcode == OP_CLOSE { PeelClose(f, Wire(rest)); } else { PeelFrame(f, Wire(rest)); }
    }
  }

  /** On any stream of supported client frames, successive calls return exactly the text payloads in order up to the
      first close and then the end of stream; the bytes written are exactly a pong per ping, in order, and the
      answer to the close. */
  lemma StreamIsRead(frames: seq<Sent>)
    requires forall i :: 0 <= i < |frames| ==>
               frames[i].opcode in {0, 1, 2, 8, 9, 10} && |frames[i].mask| == 4 && |frames[i].payload| <= 4194304
    ensures ReadAll(Wire(frames)) == Expected(frames)
  {
    assert forall i :: 0 <= i < |frames| ==> Supported(frames[i]);
    hide *;
    SupportedIsRead(frames);
  }

  lemma EmptyStream()
    ensures ReadAll([]) == Expected([])
  {
    assert ServerRead([]) == Failed(Eof, []);
    assert CloseReply([]) == [];
  }

  // ---------------------------------------------------------------- the imperative originals

  datatype Outcome<T> = Fine(value: T) | Bad(error: Error)

  /** for i := range payload { payload[i] ^= mask[i%4] }, in place. */
  method XorInPlace(payload: array<Byte>, mask: seq<Byte>)
    requires |mask| == 4
    modifies payload
    ensures payload[..] == Masked(old(payload[..]), mask)
  {
    hide Xor;
    for i := 0 to payload.Length
      invariant forall k :: 0 <= k < i ==> payload[k] == Xor(old(payload[k]), mask[k % 4])
      invariant forall k :: i <= k < payload.Length ==> payload[k] == old(payload[k])
    {
      payload[i] := Xor(payload[i], mask[i % 4]);
    }
  }

  method XorCopy(bytes: seq<Byte>, mask: seq<Byte>) returns (r: seq<Byte>)
    requires |mask| == 4
    ensures r == Masked(bytes, mask)
  {
    var payload := new Byte[|bytes|](i requires 0 <= i < |bytes| => bytes[i]);
    assert payload[..] == bytes;
    XorInPlace(payload, mask);
    r := payload[..];
  }

  /** The header as both writers build it, byte by byte. */
  method BuildHeader(opcode: Byte, masked: bool, len: nat) returns (frame: seq<Byte>)
    ensures frame == Header(opcode, masked, len)
  {
    var bit: nat := if masked then 128 else 0;
    frame := [SetTop(opcode)];
    if len < 126 {
      frame := frame + [bit + len];
    } else if len <= 65535 {
      frame := frame + [bit + 126];
      var ext := BigEndian(len, 2);
      frame := frame + ext;
    } else {
      frame := frame + [bit + 127];
      var ext := BigEndian(len, 8);
      frame := frame + ext;
    }
  }

  /** A buffered connection: what is still to be read, what has been written, and whether it is open for writing. */
  class Connection {
    var input: seq<Byte>
    var output: seq<Byte>
    var connected: bool

    constructor (stream: seq<Byte>)
      ensures input == stream && output == [] && connected
    {
      input, output, connected := stream, [], true;
    }

    /** io.ReadFull(c.reader, make([]byte, n)). */
    method Fill(n: nat) returns (r: Outcome<seq<Byte>>)
      modifies this`input
      ensures var f := ReadFull(old(input), n);
              input == f.rest && r == (if f.Got? then Fine(f.value) else Bad(f.error))
    {
      if n <= |input| {
        r := Fine(input[..n]);
        input := input[n..];
      } else {
        input := [];
        r := Bad(Eof);
      }
    }

    method FillHead() returns (r: Outcome<Head>)
      modifies this`input
      ensures var f := ReadHead(old(input));
              input == f.rest && r == (if f.Got? then Fine(f.value) else Bad(f.error))
    {
      var two := Fill(2);
      if two.Bad? { return Bad(two.error); }
      var h := Head(two.value[0] >= 128, two.value[0] % 16, two.value[1] >= 128, two.value[1] % 128);
      if h.len == 126 {
        var ext := Fill(2);
        if ext.Bad? { return Bad(ext.error); }
        h := h.(len := FromBigEndian(ext.value));
      } else if h.len == 127 {
        var ext := Fill(8);
        if ext.Bad? { return Bad(ext.error); }
        h := h.(len := Int64(FromBigEndian(ext.value)));
      }
      r := Fine(h);
    }

    method FillMasked(len: nat) returns (r: Outcome<seq<Byte>>)
      modifies this`input
      ensures var f := ReadMaskedPayload(old(input), len);
              input == f.rest && r == (if f.Got? then Fine(f.value) else Bad(f.error))
    {
      var mask := Fill(4);
      if mask.Bad? { return Bad(mask.error); }
      var payload := Fill(len);
      if payload.Bad? { return Bad(payload.error); }
      var clear := XorCopy(payload.value, mask.value);
      r := Fine(clear);
    }

    /** wsConn.readFrame. */
    method ReadFrame() returns (r: Outcome<Frame>)
      modifies this`input
      ensures var f := ServerRead(old(input));
              input == f.rest && r == (if f.Got? then Fine(f.value) else Bad(f.error))
    {
      hide ReadHead, ReadMaskedPayload;
      var head := FillHead();
      if head.Bad? { return Bad(head.error); }
      var h := head.value;
      if !h.masked { return Bad(NotMasked); }
      if h.len < 0 || h.len > MAX_FRAME_SIZE { return Bad(TooLarge); }
      var payload := FillMasked(h.len);
      if payload.Bad? { return Bad(payload.error); }
      if !h.fin && (h.opcode == OP_TEXT || h.opcode == OP_BINARY || h.opcode == OP_CONTINUATION) {
        return Bad(Fragmented);
      }
      r := Fine(Frame(h.opcode, payload.value));
    }

    /** nanobotWSClient.readServerFrame. */
    method ReadServerFrame() returns (r: Outcome<Frame>)
      modifies this`input
      ensures var f := ClientRead(old(input));
              input == f.rest && r == (if f.Got? then Fine(f.value) else Bad(f.error))
    {
      hide ReadHead, ReadMaskedPayload;
      var head := FillHead();
      if head.Bad? { return Bad(head.error); }
      var h := head.value;
      if h.len < 0 || h.len > MAX_FRAME_SIZE { return Bad(TooLarge); }
      var payload;
      if h.masked { payload := FillMasked(h.len); } else { payload := Fill(h.len); }
      if payload.Bad? { return Bad(payload.error); }
      r := Fine(Frame(h.opcode, payload.value));
    }

    /** wsConn.writeFrame. */
    method WriteFrame(opcode: Byte, payload: seq<Byte>) returns (ok: bool)
      modifies this`output
      ensures ok == (|payload| <= MAX_FRAME_SIZE)
      ensures output == old(output) + if ok then ServerFrame(opcode, payload) else []
    {
      if |payload| > MAX_FRAME_SIZE { return false; }
      var frame := BuildHeader(opcode, false, |payload|);
      frame := frame + payload;
      output := output + frame;
      ok := true;
    }

    /** nanobotWSClient.writeClientFrame; `mask` stands for the four random bytes. */
    method WriteClientFrame(opcode: Byte, payload: seq<Byte>, mask: seq<Byte>) returns (ok: bool)
      requires |mask| == 4
      modifies this`output
      ensures ok == connected
      ensures output == old(output) + if ok then ClientFrame(opcode, mask, payload) else []
    {
      if !connected { return false; }
      var frame := BuildHeader(opcode, true, |payload|);
      frame := frame + mask;
      var masked := XorCopy(payload, mask);
      frame := frame + masked;
      output := output + frame;
      ok := true;
    }

    /** wsConn.ReadText. */
    method NextText() returns (r: Outcome<seq<Byte>>)
      modifies this`input, this`output
      ensures var t := ReadText(old(input));
              && input == t.rest && output == old(output) + t.written
              && r == (if t.Text? then Fine(t.payload) else Bad(t.error))
    {
      hide ServerRead, ServerFrame, ReadText, Wrote;
      ghost var goal := ReadText(input);
      ghost var written: seq<Byte> := [];
      WroteIs([], goal);
      while true
        invariant goal == Wrote(written, ReadText(input)) && output == old(output) + written
        decreases |input|
      {
        ReadShrinks(input);
        ReadTextIs(input);
        WroteIs(written, ReadText(input));
        var frame := ReadFrame();
        if frame.Bad? { return Bad(frame.error); }
        var f := frame.value;
        if f.opcode == OP_TEXT { return Fine(f.payload); }
        if f.opcode == OP_BINARY || f.opcode == OP_CONTINUATION || f.opcode == OP_PONG { continue; }
        if f.opcode == OP_PING {
          var ok := WriteFrame(OP_PONG, f.payload);
          if !ok { return Bad(TooLarge); }
          ghost var pong := ServerFrame(OP_PONG, f.payload);
          WroteTwice(written, pong, ReadText(input));
          ConcatAssoc(old(output), written, pong);
          written := written + pong;
        } else if f.opcode == OP_CLOSE {
          var _ := WriteFrame(OP_CLOSE, []);
          return Bad(Eof);
        } else {
          return Bad(Unsupported(f.opcode));
        }
      }
    }
  }

  lemma WroteIs(prefix: seq<Byte>, r: TextResult)
    ensures var w := Wrote(prefix, r);
            && w.rest == r.rest && w.written == prefix + r.written && w.Text? == r.Text?
            && (r.Text? ==> w.payload == r.payload) && (r.Ended? ==> w.error == r.error)
    ensures prefix == [] ==> Wrote(prefix, r) == r
  {
    if prefix == [] { assert [] + r.written == r.written; }
  }

  lemma WroteTwice(a: seq<Byte>, b: seq<Byte>, r: TextResult)
    ensures Wrote(a, Wrote(b, r)) == Wrote(a + b, r)
  {
    assert a + (b + r.written) == a + b + r.written;
  }
}
