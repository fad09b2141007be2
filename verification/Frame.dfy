/** The ten-byte message header: written by src/mqtt/mqttest.cc and src/robot/src/main/kotlin/hello/Mqtt.kt, read
    by a decoder on each side. Longs and ints are bit patterns. */
module Frame {
  import opened Text

  type Byte = bv8

  const HEADER := 10

  datatype Message = Message(kind: bv32, id: bv64, body: seq<Byte>)

  // The layout

  /** The id, most significant byte first. */
  function IdSeq(id: bv64): (s: seq<Byte>)
    ensures |s| == 8
  {
    [((id >> 56) & 0xff) as Byte, ((id >> 48) & 0xff) as Byte, ((id >> 40) & 0xff) as Byte, ((id >> 32) & 0xff) as Byte,
     ((id >> 24) & 0xff) as Byte, ((id >> 16) & 0xff) as Byte, ((id >> 8) & 0xff) as Byte, (id & 0xff) as Byte]
  }

  /** Type and id, most significant byte first. */
  function Header(kind: bv16, id: bv64): (h: seq<Byte>)
    ensures |h| == HEADER
  {
    [((kind >> 8) & 0xff) as Byte, (kind & 0xff) as Byte] + IdSeq(id)
  }

  /** The header, then the body. */
  function Encode(kind: bv16, id: bv64, body: seq<Byte>): (frame: seq<Byte>)
    ensures |frame| == HEADER + |body|
  {
    Header(kind, id) + body
  }

  /** dump_mqtt and dump_im_msg: unsigned bytes shifted into place. */
  function CppKind(p: seq<Byte>): bv32
    requires |p| >= HEADER
  {
    Kind(p[0], p[1])
  }

  function CppId(p: seq<Byte>): bv64
    requires |p| >= HEADER
  {
    Id(p[2], p[3], p[4], p[5], p[6], p[7], p[8], p[9])
  }

  function CppDecode(p: seq<Byte>): Option<Message> {
    if |p| < HEADER then None else Some(Message(CppKind(p), CppId(p), p[HEADER..]))
  }

  /** What is written is read back, for every type, id and body. */
  lemma DecodeEncode(kind: bv16, id: bv64, body: seq<Byte>)
    ensures CppDecode(Encode(kind, id, body)) == Some(Message(kind as bv32, id, body))
  {
    assert Encode(kind, id, body)[HEADER..] == body;
  }

  /** Every frame the decoder reads is one the encoder writes: the layout leaves no slack. */
  lemma EncodeDecode(p: seq<Byte>, m: Message)
    requires CppDecode(p) == Some(m)
    ensures m.kind <= 0xffff && Encode(m.kind as bv16, m.id, m.body) == p
  {
  }

  function Kind(a: Byte, b: Byte): bv32 {
    ((a as bv32) << 8) | (b as bv32)
  }

  function Id(a: Byte, b: Byte, c: Byte, d: Byte, e: Byte, f: Byte, g: Byte, h: Byte): bv64 {
    Join(a as bv64, b as bv64, c as bv64, d as bv64, e as bv64, f as bv64, g as bv64, h as bv64)
  }

  /** Longs shifted into place and put together. */
  function Join(a: bv64, b: bv64, c: bv64, d: bv64, e: bv64, f: bv64, g: bv64, h: bv64): bv64 {
    (a << 56) | (b << 48) | (c << 40) | (d << 32) | (e << 24) | (f << 16) | (g << 8) | h
  }

  /** For example: most significant bytes come first, the body as it is behind ten bytes. */
  lemma LayoutExample()
    ensures Encode(0x0102, 0x0304_0506_0708_090a, [11, 12]) == [1, 2, 3, 4, 5, 6, 7, 8, 9, 10, 11, 12]
  {
  }

  // The writers

  const SIGN: bv64 := 0x8000_0000_0000_0000

  /** What a signed shift brings in from the left. */
  function Fill(x: bv64): bv64 {
    if x & SIGN != 0 then 0xffff_ffff_ffff_ffff else 0
  }

  /** The low byte of a signed shift by up to 56 places is that of the unsigned one. */
  lemma SignedShifts(x: bv64)
    ensures ((x >> 56) | (Fill(x) << 8)) & 0xff == (x >> 56) & 0xff
    ensures ((x >> 48) | (Fill(x) << 16)) & 0xff == (x >> 48) & 0xff
    ensures ((x >> 40) | (Fill(x) << 24)) & 0xff == (x >> 40) & 0xff
    ensures ((x >> 32) | (Fill(x) << 32)) & 0xff == (x >> 32) & 0xff
    ensures ((x >> 24) | (Fill(x) << 40)) & 0xff == (x >> 24) & 0xff
    ensures ((x >> 16) | (Fill(x) << 48)) & 0xff == (x >> 16) & 0xff
    ensures ((x >> 8) | (Fill(x) << 56)) & 0xff == (x >> 8) & 0xff
  {
  }

  /** The eight assignments both writers make for the id: signed shifts cut down to a byte. */
  method WriteId(id: bv64, buf: array<Byte>)
    requires buf.Length >= HEADER
    modifies buf
    ensures buf[2..HEADER] == IdSeq(id)
    ensures buf[..2] == old(buf[..2]) && buf[HEADER..] == old(buf[HEADER..])
  {
    var b2 := (((id >> 56) | (Fill(id) << 8)) & 0xff) as Byte;
    var b3 := (((id >> 48) | (Fill(id) << 16)) & 0xff) as Byte;
    var b4 := (((id >> 40) | (Fill(id) << 24)) & 0xff) as Byte;
    var b5 := (((id >> 32) | (Fill(id) << 32)) & 0xff) as Byte;
    var b6 := (((id >> 24) | (Fill(id) << 40)) & 0xff) as Byte;
    var b7 := (((id >> 16) | (Fill(id) << 48)) & 0xff) as Byte;
    var b8 := (((id >> 8) | (Fill(id) << 56)) & 0xff) as Byte;
    var b9 := (id & 0xff) as Byte;
    assert [b2, b3, b4, b5, b6, b7, b8, b9] == IdSeq(id) by {
      SignedShifts(id);
    }
    PutEight(buf, b2, b3, b4, b5, b6, b7, b8, b9);
  }

  method PutEight(buf: array<Byte>, b2: Byte, b3: Byte, b4: Byte, b5: Byte, b6: Byte, b7: Byte, b8: Byte, b9: Byte)
    requires buf.Length >= HEADER
    modifies buf
    ensures buf[2..HEADER] == [b2, b3, b4, b5, b6, b7, b8, b9]
    ensures buf[..2] == old(buf[..2]) && buf[HEADER..] == old(buf[HEADER..])
  {
    buf[2], buf[3], buf[4], buf[5], buf[6], buf[7], buf[8], buf[9] := b2, b3, b4, b5, b6, b7, b8, b9;
  }

  lemma FrameOf(kind: bv16, id: bv64, body: seq<Byte>, buf: seq<Byte>)
    requires |buf| == HEADER + |body| && buf[HEADER..] == body && buf[2..HEADER] == IdSeq(id)
    requires buf[0] == ((kind >> 8) & 0xff) as Byte && buf[1] == (kind & 0xff) as Byte
    ensures buf == Encode(kind, id, body)
  {
    assert buf[..2] == [buf[0], buf[1]];
    assert buf == buf[..2] + buf[2..HEADER] + buf[HEADER..];
  }

  /** send_mqtt_msg: the body is serialised behind the header first. */
  method SendMqttMsg(kind: bv16, id: bv64, body: seq<Byte>) returns (buf: array<Byte>)
    ensures fresh(buf) && buf[..] == Encode(kind, id, body)
  {
    buf := new Byte[|body| + 10];
    forall k | 0 <= k < |body| {
      buf[k + 10] := body[k];
    }
    assert buf[10..] == body;
    buf[0] := (kind >> 8) as Byte;
    buf[1] := (kind & 0xff) as Byte;
    assert buf[10..] == body;
    WriteId(id, buf);
    assert buf[0] == buf[..2][0] && buf[1] == buf[..2][1];
    FrameOf(kind, id, body, buf[..]);
  }

  /** sendLiveMsg and both sendImMsg: an int for the type, of which two bytes are kept, and a copying loop. */
  method SendKotlinMsg(kind: bv32, id: bv64, body: seq<Byte>) returns (payload: array<Byte>)
    ensures fresh(payload) && payload[..] == Encode((kind & 0xffff) as bv16, id, body)
  {
    payload := new Byte[|body| + 10];
    payload[0] := ((kind >> 8) & 0xff) as Byte;
    payload[1] := (kind & 0xff) as Byte;
    ghost var h0, h1 := payload[0], payload[1];
    WriteId(id, payload);
    assert payload[0] == payload[..2][0] && payload[1] == payload[..2][1];
    var i := 0;
    while i < |body|
      invariant 0 <= i <= |body|
      invariant payload[2..10] == IdSeq(id) && payload[0] == h0 && payload[1] == h1
      invariant forall k :: 0 <= k < i ==> payload[k + 10] == body[k]
    {
      payload[i + 10] := body[i];
      i := i + 1;
    }
    assert payload[10..] == body;
    FrameOf((kind & 0xffff) as bv16, id, body, payload[..]);
  }

  // The Kotlin reader

  /** A signed byte widened: the mask is itself a signed byte and masks nothing, so the sign comes along. */
  function Widen32(b: Byte): bv32 {
    if b >= 0x80 then 0xffff_ff00 | (b as bv32) else b as bv32
  }

  function Widen64(b: Byte): bv64 {
    if b >= 0x80 then 0xffff_ffff_ffff_ff00 | (b as bv64) else b as bv64
  }

  /** messageArrived: the type. */
  function KotlinKind(p: seq<Byte>): bv32
    requires |p| >= HEADER
  {
    (Widen32(p[0]) << 8) | Widen32(p[1])
  }

  function WideId(a: Byte, b: Byte, c: Byte, d: Byte, e: Byte, f: Byte, g: Byte, h: Byte): bv64 {
    Join(Widen64(a), Widen64(b), Widen64(c), Widen64(d), Widen64(e), Widen64(f), Widen64(g), Widen64(h))
  }

  /** messageArrived: the id, its top byte taken from the type. */
  function KotlinId(p: seq<Byte>): bv64
    requires |p| >= HEADER
  {
    WideId(p[0], p[3], p[4], p[5], p[6], p[7], p[8], p[9])
  }

  /** The two readers see the same type exactly when both of its bytes are below 128. */
  lemma KindsAgreeIff(p: seq<Byte>)
    requires |p| >= HEADER
    ensures KotlinKind(p) == CppKind(p) <==> p[0] < 0x80 && p[1] < 0x80
  {
  }

  /** The last of the bytes up to n that is negative as a signed byte, 0 when there is none behind byte 2. */
  function LastNegative(p: seq<Byte>, n: nat): (m: nat)
    requires n < |p|
    ensures m == 0 || (3 <= m <= n && p[m] >= 0x80)
    ensures forall k :: 3 <= k <= n && k > m ==> p[k] < 0x80
  {
    if n < 3 then 0 else if p[n] >= 0x80 then n else LastNegative(p, n - 1)
  }

  /** The two readers see the same id exactly when no byte behind the top one is negative and the top byte happens
      to equal the type's, or all bytes in front of the last negative one are 255. */
  lemma IdsAgreeIff(p: seq<Byte>)
    requires |p| >= HEADER
    ensures var m := LastNegative(p, 9);
            KotlinId(p) == CppId(p) <==> if m == 0 then p[0] == p[2] else forall k :: 2 <= k < m ==> p[k] == 0xff
  {
    IdBytesAgree(p[0], p[2], p[3], p[4], p[5], p[6], p[7], p[8], p[9]);
  }

  /** The same on the bytes themselves. */
  lemma IdBytesAgree(t: Byte, c: Byte, d: Byte, e: Byte, f: Byte, g: Byte, h: Byte, i: Byte, j: Byte)
    ensures WideId(t, d, e, f, g, h, i, j) == Id(c, d, e, f, g, h, i, j)
       <==> if j >= 0x80 then c == d == e == f == g == h == i == 0xff
            else if i >= 0x80 then c == d == e == f == g == h == 0xff
            else if h >= 0x80 then c == d == e == f == g == 0xff
            else if g >= 0x80 then c == d == e == f == 0xff
            else if f >= 0x80 then c == d == e == 0xff
            else if e >= 0x80 then c == d == 0xff
            else if d >= 0x80 then c == 0xff
            else c == t
  {
    if j >= 0x80 {
      SignAt9(t, c, d, e, f, g, h, i, j);
    } else if i >= 0x80 {
      SignAt8(t, c, d, e, f, g, h, i, j);
    } else if h >= 0x80 {
      SignAt7(t, c, d, e, f, g, h, i, j);
    } else if g >= 0x80 {
      SignAt6(t, c, d, e, f, g, h, i, j);
    } else if f >= 0x80 {
      SignAt5(t, c, d, e, f, g, h, i, j);
    } else if e >= 0x80 {
      SignAt4(t, c, d, e, f, g, h, i, j);
    } else if d >= 0x80 {
      SignAt3(t, c, d, e, f, g, h, i, j);
    } else {
      NoSignAgree(t, c, d, e, f, g, h, i, j);
    }
  }

  lemma SignAt9(t: Byte, c: Byte, d: Byte, e: Byte, f: Byte, g: Byte, h: Byte, i: Byte, j: Byte)
    requires j >= 0x80
    ensures WideId(t, d, e, f, g, h, i, j) == Id(c, d, e, f, g, h, i, j) <==> c == d == e == f == g == h == i == 0xff
  {
  }

  lemma SignAt8(t: Byte, c: Byte, d: Byte, e: Byte, f: Byte, g: Byte, h: Byte, i: Byte, j: Byte)
    requires i >= 0x80 && j < 0x80
    ensures WideId(t, d, e, f, g, h, i, j) == Id(c, d, e, f, g, h, i, j) <==> c == d == e == f == g == h == 0xff
  {
  }

  lemma SignAt7(t: Byte, c: Byte, d: Byte, e: Byte, f: Byte, g: Byte, h: Byte, i: Byte, j: Byte)
    requires h >= 0x80 && i < 0x80 && j < 0x80
    ensures WideId(t, d, e, f, g, h, i, j) == Id(c, d, e, f, g, h, i, j) <==> c == d == e == f == g == 0xff
  {
  }

  lemma SignAt6(t: Byte, c: Byte, d: Byte, e: Byte, f: Byte, g: Byte, h: Byte, i: Byte, j: Byte)
    requires g >= 0x80 && h < 0x80 && i < 0x80 && j < 0x80
    ensures WideId(t, d, e, f, g, h, i, j) == Id(c, d, e, f, g, h, i, j) <==> c == d == e == f == 0xff
  {
  }

  lemma SignAt5(t: Byte, c: Byte, d: Byte, e: Byte, f: Byte, g: Byte, h: Byte, i: Byte, j: Byte)
    requires f >= 0x80 && g < 0x80 && h < 0x80 && i < 0x80 && j < 0x80
    ensures WideId(t, d, e, f, g, h, i, j) == Id(c, d, e, f, g, h, i, j) <==> c == d == e == 0xff
  {
  }

  lemma SignAt4(t: Byte, c: Byte, d: Byte, e: Byte, f: Byte, g: Byte, h: Byte, i: Byte, j: Byte)
    requires e >= 0x80 && f < 0x80 && g < 0x80 && h < 0x80 && i < 0x80 && j < 0x80
    ensures WideId(t, d, e, f, g, h, i, j) == Id(c, d, e, f, g, h, i, j) <==> c == d == 0xff
  {
  }

  lemma SignAt3(t: Byte, c: Byte, d: Byte, e: Byte, f: Byte, g: Byte, h: Byte, i: Byte, j: Byte)
    requires d >= 0x80 && e < 0x80 && f < 0x80 && g < 0x80 && h < 0x80 && i < 0x80 && j < 0x80
    ensures WideId(t, d, e, f, g, h, i, j) == Id(c, d, e, f, g, h, i, j) <==> c == 0xff
  {
  }

  lemma NoSignAgree(t: Byte, c: Byte, d: Byte, e: Byte, f: Byte, g: Byte, h: Byte, i: Byte, j: Byte)
    requires j < 0x80 && i < 0x80 && h < 0x80 && g < 0x80 && f < 0x80 && e < 0x80 && d < 0x80
    ensures WideId(t, d, e, f, g, h, i, j) == Id(c, d, e, f, g, h, i, j) <==> c == t
  {
    NoSign(t, d, e, f, g, h, i, j);
    JoinTop(Widen64(t), t as bv64, d as bv64, e as bv64, f as bv64, g as bv64, h as bv64, i as bv64, j as bv64);
    TopByte(c, d, e, f, g, h, i, j);
    TopByte(t, d, e, f, g, h, i, j);
  }

  lemma NoSign(t: Byte, d: Byte, e: Byte, f: Byte, g: Byte, h: Byte, i: Byte, j: Byte)
    requires j < 0x80 && i < 0x80 && h < 0x80 && g < 0x80 && f < 0x80 && e < 0x80 && d < 0x80
    ensures WideId(t, d, e, f, g, h, i, j)
         == Join(Widen64(t), d as bv64, e as bv64, f as bv64, g as bv64, h as bv64, i as bv64, j as bv64)
  {
  }

  lemma JoinTop(a: bv64, a': bv64, b: bv64, c: bv64, d: bv64, e: bv64, f: bv64, g: bv64, h: bv64)
    requires a & 0xff == a' & 0xff
    ensures Join(a, b, c, d, e, f, g, h) == Join(a', b, c, d, e, f, g, h)
  {
    assert a << 56 == a' << 56;
  }

  lemma TopByte(c: Byte, d: Byte, e: Byte, f: Byte, g: Byte, h: Byte, i: Byte, j: Byte)
    ensures Id(c, d, e, f, g, h, i, j) >> 56 == c as bv64
  {
  }

  /** So of a frame that says kind and id, whoever wrote it, the Kotlin reader gets both right exactly when the two
      conditions hold together. */
  lemma KotlinReadsBackIff(p: seq<Byte>, kind: bv32, id: bv64)
    requires CppDecode(p).Some? && CppDecode(p).value == Message(kind, id, p[HEADER..])
    ensures KotlinKind(p) == kind && KotlinId(p) == id
       <==> p[0] < 0x80 && p[1] < 0x80
            && if LastNegative(p, 9) == 0 then p[0] == p[2]
               else forall k :: 2 <= k < LastNegative(p, 9) ==> p[k] == 0xff
  {
    KindsAgreeIff(p);
    IdsAgreeIff(p);
  }

  /** For example: of type 1 and id 200 the Kotlin reader makes type 1 and the id whose upper 56 bits are all set,
      and of type 200 and id 0 a negative type. */
  lemma KotlinMisreads()
    ensures CppId(Encode(1, 200, [])) == 200 && KotlinId(Encode(1, 200, [])) == 0xffff_ffff_ffff_ffc8
    ensures CppKind(Encode(200, 0, [])) == 200 && KotlinKind(Encode(200, 0, [])) == 0xffff_ffc8
  {
    assert Encode(1, 200, []) == [0, 1, 0, 0, 0, 0, 0, 0, 0, 200];
    assert Encode(200, 0, []) == [0, 200, 0, 0, 0, 0, 0, 0, 0, 0];
  }
}
