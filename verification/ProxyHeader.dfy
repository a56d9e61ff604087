/** The PROXY protocol v2 header sent ahead of a direct splice. */
module ProxyHeader {
  import opened Bytes
  import opened Text

  /** Carriage returns, line feeds and "QUIT". */
  const SIGNATURE: bytes := [0x0D, 0x0A, 0x0D, 0x0A, 0x00, 0x0D, 0x0A, 0x51, 0x55, 0x49, 0x54, 0x0A]
  const VERSION_COMMAND: byte := 0x21
  const TCP4: byte := 0x11
  const TCP6: byte := 0x21
  const MAPPED: bytes := [0, 0, 0, 0, 0, 0, 0, 0, 0, 0, 255, 255]

  datatype Addr = Tcp(ip: bytes, port: nat) | NotTcp

  /** net.IP.To4: the four-octet form, None for nil. */
  function To4(ip: bytes): Option<bytes>
  {
    if |ip| == 4 then Some(ip)
    else if |ip| == 16 && ip[..12] == MAPPED then Some(ip[12..])
    else None
  }

  /** net.IP.To16, empty for nil. */
  function To16(ip: bytes): bytes
  {
    if |ip| == 4 then MAPPED + ip else if |ip| == 16 then ip else []
  }

  function BothV4(src: Addr, dst: Addr): bool
    requires src.Tcp? && dst.Tcp?
  {
    To4(src.ip).Some? && To4(dst.ip).Some?
  }

  method ProxyV2Header(src: Addr, dst: Addr) returns (r: Option<bytes>)
    ensures r.Some? <==> src.Tcp? && dst.Tcp?
    ensures r.Some? ==> r.value == HeaderOf(src, dst)
  {
    if !src.Tcp? || !dst.Tcp? {
      return None;
    }
    var hdr := SIGNATURE;
    hdr := hdr + [VERSION_COMMAND];
    var s4, d4 := To4(src.ip), To4(dst.ip);
    var body: bytes;
    if s4.Some? && d4.Some? {
      hdr := hdr + [TCP4];
      body := s4.value + d4.value;
    } else {
      hdr := hdr + [TCP6];
      body := To16(src.ip) + To16(dst.ip);
    }
    body := body + BE(src.port, 2);
    body := body + BE(dst.port, 2);
    hdr := hdr + BE(|body|, 2);
    return Some(hdr + body);
  }

  function BodyOf(src: Addr, dst: Addr): bytes
    requires src.Tcp? && dst.Tcp?
  {
    (if BothV4(src, dst) then To4(src.ip).value + To4(dst.ip).value else To16(src.ip) + To16(dst.ip))
    + BE(src.port, 2) + BE(dst.port, 2)
  }

  function HeaderOf(src: Addr, dst: Addr): bytes
    requires src.Tcp? && dst.Tcp?
  {
    SIGNATURE + [VERSION_COMMAND] + [if BothV4(src, dst) then TCP4 else TCP6]
    + BE(|BodyOf(src, dst)|, 2) + BodyOf(src, dst)
  }

  datatype Proxied = Proxied(src: Addr, dst: Addr, payload: bytes)

  function AddressLength(family: byte): nat
  {
    if family == TCP4 then 4 else 16
  }

  /** Section 2.2 of the PROXY protocol specification, for TCP over IPv4 and
      IPv6: fixed part, declared length, addresses, ports; anything the length
      covers beyond them is skipped. */
  function Decode(b: bytes): Option<Proxied>
  {
    if |b| < 16 || b[..12] != SIGNATURE || b[12] != VERSION_COMMAND || (b[13] != TCP4 && b[13] != TCP6) then None
    else
      var n, a := FromBE(b[14..16]), AddressLength(b[13]);
      if n < 2 * a + 4 || |b| < 16 + n then None
      else Some(Endpoints(b[16..16 + n], a, b[16 + n..]))
  }

  function Endpoints(body: bytes, a: nat, payload: bytes): Proxied
    requires |body| >= 2 * a + 4
  {
    Proxied(Tcp(body[..a], FromBE(body[a + a..a + a + 2])),
            Tcp(body[a..a + a], FromBE(body[a + a + 2..a + a + 4])),
            payload)
  }

  predicate ValidAddr(a: Addr)
  {
    a.Tcp? && (|a.ip| == 4 || |a.ip| == 16) && a.port <= 65535
  }

  /** The same endpoint, an IPv4 address being equal to its mapped form. */
  predicate SameEndpoint(a: Addr, b: Addr)
  {
    a.Tcp? && b.Tcp? && To16(a.ip) == To16(b.ip) && a.port == b.port
  }

  ghost predicate Intact(r: Option<Proxied>, src: Addr, dst: Addr, payload: bytes)
  {
    r.Some? && SameEndpoint(r.value.src, src) && SameEndpoint(r.value.dst, dst) && r.value.payload == payload
  }

  /** The length field counts the body. */
  lemma LengthFieldIsBodyLength(src: Addr, dst: Addr)
    requires src.Tcp? && dst.Tcp?
    ensures var h := HeaderOf(src, dst);
            |h| == 16 + |BodyOf(src, dst)| && FromBE(h[14..16]) == |BodyOf(src, dst)|
  {
    Powers();
    BERoundTrip(|BodyOf(src, dst)|, 2);
    assert HeaderOf(src, dst)[14..16] == BE(|BodyOf(src, dst)|, 2);
  }

  /** Four octets, or sixteen of which the first twelve mark a mapped address. */
  ghost predicate IsV4(ip: bytes)
  {
    |ip| == 4 || (|ip| == 16 && (forall i :: 0 <= i < 10 ==> ip[i] == 0) && ip[10] == 255 && ip[11] == 255)
  }

  lemma To4IffV4(ip: bytes)
    ensures To4(ip).Some? <==> IsV4(ip)
    ensures |ip| == 4 ==> To4(ip) == Some(ip)
    ensures To4(ip).Some? && |ip| == 16 ==> To4(ip) == Some(ip[12..])
  {
    if |ip| == 16 && IsV4(ip) {
      assert ip[..12] == MAPPED;
    } else if |ip| == 16 && ip[..12] == MAPPED {
      assert forall i :: 0 <= i < 12 ==> ip[i] == ip[..12][i];
    }
  }

  /** The fixed part, octet by octet: signature, version 2 and command PROXY,
      TCP over IPv4 exactly when both addresses have that form. */
  lemma HeaderOnTheWire(src: Addr, dst: Addr)
    requires src.Tcp? && dst.Tcp?
    ensures var h := HeaderOf(src, dst);
            && h[..12] == [13, 10, 13, 10, 0, 13, 10, 81, 85, 73, 84, 10]
            && h[12] == 33 && h[13] == (if IsV4(src.ip) && IsV4(dst.ip) then 17 else 33)
            && h[16..] == BodyOf(src, dst)
  {
    var h := HeaderOf(src, dst);
    assert h == (SIGNATURE + [VERSION_COMMAND] + [if BothV4(src, dst) then TCP4 else TCP6] + BE(|BodyOf(src, dst)|, 2))
                + BodyOf(src, dst);
    assert h[..12] == SIGNATURE;
    To4IffV4(src.ip);
    To4IffV4(dst.ip);
  }

  lemma FourPieces<T>(body: seq<T>, a: nat, s: seq<T>, d: seq<T>, sp: seq<T>, dp: seq<T>)
    requires body == s + d + sp + dp && |s| == |d| == a && |sp| == |dp| == 2
    ensures body[..a] == s && body[a..a + a] == d
    ensures body[a + a..a + a + 2] == sp && body[a + a + 2..a + a + 4] == dp
  {
  }

  lemma EndpointsShape(body: bytes, a: nat, s: bytes, d: bytes, sp: bytes, dp: bytes, payload: bytes)
    requires |body| == a + a + 4
    requires body[..a] == s && body[a..a + a] == d
    requires body[a + a..a + a + 2] == sp && body[a + a + 2..a + a + 4] == dp
    ensures Endpoints(body, a, payload) == Proxied(Tcp(s, FromBE(sp)), Tcp(d, FromBE(dp)), payload)
  {
  }

  lemma DecodeShape(family: byte, len: bytes, body: bytes, payload: bytes)
    requires family == TCP4 || family == TCP6
    requires |len| == 2 && FromBE(len) == |body|
    ensures var r := Decode(SIGNATURE + [VERSION_COMMAND] + [family] + len + body + payload);
            if |body| < 2 * AddressLength(family) + 4 then r == None
            else r == Some(Endpoints(body, AddressLength(family), payload))
  {
    HeaderLayout(SIGNATURE, VERSION_COMMAND, family, len, body, payload);
  }

  lemma HeaderLayout(sig: bytes, vc: byte, family: byte, len: bytes, body: bytes, payload: bytes)
    requires |sig| == 12 && |len| == 2
    ensures var b := sig + [vc] + [family] + len + body + payload;
            && |b| == 16 + |body| + |payload| && b[..12] == sig && b[12] == vc && b[13] == family
            && b[14..16] == len && b[16..16 + |body|] == body && b[16 + |body|..] == payload
  {
    var head := sig + [vc] + [family] + len;
    var b := head + body + payload;
    assert b[..16] == head;
    assert head[..12] == sig && head[14..16] == len;
    assert b[..12] == b[..16][..12] && b[14..16] == b[..16][14..16];
  }

  lemma MappedForm(ip: bytes)
    requires To4(ip).Some?
    ensures |To4(ip).value| == 4 && To16(To4(ip).value) == To16(ip)
  {
    if |ip| == 16 {
      assert ip == ip[..12] + ip[12..];
    }
  }

  lemma V4RoundTrip(src: Addr, dst: Addr, payload: bytes)
    requires src.Tcp? && dst.Tcp? && BothV4(src, dst)
    ensures Decode(HeaderOf(src, dst) + payload)
            == Some(Proxied(Tcp(To4(src.ip).value, FromBE(BE(src.port, 2))),
                            Tcp(To4(dst.ip).value, FromBE(BE(dst.port, 2))), payload))
  {
    Powers();
    BERoundTrip(12, 2);
    MappedForm(src.ip);
    MappedForm(dst.ip);
    DecodeShape(TCP4, BE(12, 2), BodyOf(src, dst), payload);
    FourPieces(BodyOf(src, dst), 4, To4(src.ip).value, To4(dst.ip).value, BE(src.port, 2), BE(dst.port, 2));
    EndpointsShape(BodyOf(src, dst), 4, To4(src.ip).value, To4(dst.ip).value, BE(src.port, 2), BE(dst.port, 2), payload);
  }

  lemma V6RoundTrip(src: Addr, dst: Addr, payload: bytes)
    requires src.Tcp? && dst.Tcp? && !BothV4(src, dst)
    ensures var r := Decode(HeaderOf(src, dst) + payload);
            if To16(src.ip) == [] || To16(dst.ip) == [] then r == None
            else r == Some(Proxied(Tcp(To16(src.ip), FromBE(BE(src.port, 2))),
                                   Tcp(To16(dst.ip), FromBE(BE(dst.port, 2))), payload))
  {
    Powers();
    var n := |BodyOf(src, dst)|;
    BERoundTrip(n, 2);
    DecodeShape(TCP6, BE(n, 2), BodyOf(src, dst), payload);
    if To16(src.ip) != [] && To16(dst.ip) != [] {
      FourPieces(BodyOf(src, dst), 16, To16(src.ip), To16(dst.ip), BE(src.port, 2), BE(dst.port, 2));
      EndpointsShape(BodyOf(src, dst), 16, To16(src.ip), To16(dst.ip), BE(src.port, 2), BE(dst.port, 2), payload);
    }
  }

  /** The enclave reads back both endpoints and the client's first bytes exactly
      when both addresses are real IP addresses and both ports fit 16 bits. */
  lemma HeaderRoundTrip(src: Addr, dst: Addr, payload: bytes)
    requires src.Tcp? && dst.Tcp?
    ensures Intact(Decode(HeaderOf(src, dst) + payload), src, dst, payload) <==> ValidAddr(src) && ValidAddr(dst)
  {
    Powers();
    BERoundTrip(src.port, 2);
    BERoundTrip(dst.port, 2);
    if BothV4(src, dst) {
      MappedForm(src.ip);
      MappedForm(dst.ip);
      V4RoundTrip(src, dst, payload);
    } else {
      V6RoundTrip(src, dst, payload);
    }
  }
}
