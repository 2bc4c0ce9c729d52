/** HTTP/2 frames as bytes: core/h2_shared.go:387-420 and core/fp_h2.go:678-692,
    and the header parse of core/epoll_h2_linux_amd64.go:27-46. */
module H2Frames {
  import opened ByteStrings

  const HEADER_LEN := 9

  const DATA: Byte := 0
  const HEADERS: Byte := 1
  const CONTINUATION: Byte := 9

  const END_STREAM: Byte := 1
  const END_HEADERS: Byte := 4

  /** `putH2FrameHeader` */
  function FrameHeader(typ: Byte, flags: Byte, sid: nat, n: nat): (h: Bytes)
    requires n < 0x100_0000 && sid < 0x1_0000_0000
    ensures |h| == HEADER_LEN
  {
    [n / 65536, n / 256 % 256, n % 256, typ, flags, sid / 0x100_0000, sid / 65536 % 256, sid / 256 % 256, sid % 256]
  }

  /** `appendH2Frame`, without the buffer it is appended to. */
  function Frame(typ: Byte, flags: Byte, sid: nat, payload: Bytes): (f: Bytes)
    requires |payload| < 0x100_0000 && sid < 0x1_0000_0000
    ensures |f| == HEADER_LEN + |payload|
  {
    FrameHeader(typ, flags, sid, |payload|) + payload
  }

  function Num(b: Byte): nat {
    b
  }

  /** `h2FramePayloadLen` */
  function PayloadLen(h: Bytes): nat
    requires |h| >= 3
  {
    Num(h[0]) * 65536 + Num(h[1]) * 256 + Num(h[2])
  }

  function StreamId(h: Bytes): nat
    requires |h| >= HEADER_LEN
  {
    (Num(h[5]) * 0x100_0000 + Num(h[6]) * 65536 + Num(h[7]) * 256 + Num(h[8])) % 0x8000_0000
  }

  lemma HeaderReads(typ: Byte, flags: Byte, sid: nat, n: nat, rest: Bytes)
    requires n < 0x100_0000 && sid < 0x8000_0000
    ensures var b := FrameHeader(typ, flags, sid, n) + rest;
            PayloadLen(b) == n && b[3] == typ && b[4] == flags && StreamId(b) == sid
  {
    assert n == n / 65536 * 65536 + n / 256 % 256 * 256 + n % 256;
    Bytes4(sid);
  }

  lemma Bytes4(v: nat)
    requires v < 0x1_0000_0000
    ensures v == v / 0x100_0000 * 0x100_0000 + v / 65536 % 256 * 65536 + v / 256 % 256 * 256 + v % 256
  {
    Halves(v);
    Halves(v / 256);
    Halves(v / 65536);
    TwoShifts(v);
    TwoShifts(v / 256);
    assert v / 0x100_0000 == v / 65536 / 256 by { ThreeShifts(v); }
  }

  lemma Halves(v: nat)
    ensures v == v / 256 * 256 + v % 256
  {
  }

  lemma TwoShifts(v: nat)
    ensures v / 65536 == v / 256 / 256
  {
    Halves(v);
    Halves(v / 256);
  }

  lemma ThreeShifts(v: nat)
    ensures v / 0x100_0000 == v / 65536 / 256
  {
    TwoShifts(v);
    Halves(v);
    Halves(v / 256);
    Halves(v / 256 / 256);
  }
}
